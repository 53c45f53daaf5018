/**
  The command line that showcmd prints (internal/cli/info.go), and how a POSIX shell splits it back
  into words: sections 2.2.2 (single quotes), 2.2.3 (double quotes) and 2.3 (token recognition) of
  the POSIX Shell Command Language.
 */
module ShellWords {
  import opened Wrappers

  // ---------- Printing ----------

  /** Every single quote is closed over: '"'"' */
  function Escaped(word: string): string {
    if word == "" then ""
    else (if word[0] == '\'' then "'\"'\"'" else [word[0]]) + Escaped(word[1..])
  }

  /** `quotePOSIX` */
  function Quote(word: string): string {
    "'" + Escaped(word) + "'"
  }

  /** The words from the second one on, each behind a blank. */
  function Following(words: seq<string>): string {
    if words == [] then "" else " " + Quote(words[0]) + Following(words[1..])
  }

  /** The printed line for a command's path and arguments. */
  function Line(words: seq<string>): string
    requires words != []
  {
    Quote(words[0]) + Following(words[1..]) + "\n"
  }

  /** Standard output, which may refuse a write after taking some of it. */
  class Output {
    var text: string

    constructor ()
      ensures text == ""
    {
      text := "";
    }

    method WriteString(s: string) returns (ok: bool)
      modifies this
      ensures ok ==> text == old(text) + s
      ensures !ok ==> old(text) <= text <= old(text) + s
    {
      ok := *;
      var n: int := *;
      if ok {
        text := text + s;
      } else if 0 <= n <= |s| {
        assert s[..n] <= s;
        text := text + s[..n];
      }
    }
  }

  lemma {:induction false} FollowingAppends(words: seq<string>, word: string)
    ensures Following(words + [word]) == Following(words) + (" " + Quote(word))
    decreases |words|
  {
    if words == [] {
      assert words + [word] == [word] && [word][1..] == [];
    } else {
      assert (words + [word])[1..] == words[1..] + [word];
      FollowingAppends(words[1..], word);
    }
  }

  /** What has been printed after the first `n` words, with the blank in front of the next if `blank`. */
  function Printed(words: seq<string>, n: nat): string
    requires n <= |words|
  {
    if n == 0 then "" else Quote(words[0]) + Following(words[1..n])
  }

  lemma PrintedStep(words: seq<string>, n: nat)
    requires n < |words|
    ensures Printed(words, n + 1) == Printed(words, n) + (if n == 0 then "" else " ") + Quote(words[n])
  {
    if n > 0 {
      assert words[1..n + 1] == words[1..n] + [words[n]];
      FollowingAppends(words[1..n], words[n]);
    } else {
      assert words[1..1] == [];
    }
  }

  lemma {:induction false} PrintedIsPrefix(words: seq<string>, n: nat)
    requires words != [] && n <= |words|
    ensures Printed(words, n) <= Line(words)
    decreases |words| - n
  {
    if n == |words| {
      assert words[1..n] == words[1..];
      assert Line(words) == Printed(words, n) + "\n";
    } else {
      PrintedIsPrefix(words, n + 1);
      PrintedStep(words, n);
    }
  }

  /** Where the output is before and after one word, and that neither is beyond the line. */
  lemma WordPlaces(words: seq<string>, index: nat, before: string)
    requires index < |words|
    ensures var text, word := before + Printed(words, index), Quote(words[index]);
      && before + Printed(words, index + 1) == (if index == 0 then text else text + " ") + word
      && (if index == 0 then text else text + " ") + word <= before + Line(words)
  {
    PrintedStep(words, index);
    PrintedIsPrefix(words, index + 1);
  }

  /** One word of the loop of `runShowcmd`, behind a blank unless it is the first. */
  method WriteWord(words: seq<string>, index: nat, stdout: Output, ghost before: string) returns (ok: bool)
    requires index < |words| && stdout.text == before + Printed(words, index)
    modifies stdout
    ensures ok ==> stdout.text == before + Printed(words, index + 1)
    ensures stdout.text <= before + Line(words)
  {
    WordPlaces(words, index, before);
    ghost var text := stdout.text;
    if index != 0 {
      ok := stdout.WriteString(" ");
      if !ok {
        PrefixWithin(text, stdout.text, " ", Quote(words[index]), before + Line(words));
        return;
      }
    }
    ghost var next := stdout.text;
    ok := stdout.WriteString(Quote(words[index]));
    assert next + Quote(words[index]) + "" == next + Quote(words[index]);
    PrefixWithin(next, stdout.text, Quote(words[index]), "", before + Line(words));
  }

  /** The word loop of `runShowcmd`: all of the line, or a prefix of it when a write fails. */
  method RunShowcmd(path: string, args: seq<string>, stdout: Output) returns (ok: bool)
    modifies stdout
    ensures ok ==> stdout.text == old(stdout.text) + Line([path] + args)
    ensures stdout.text <= old(stdout.text) + Line([path] + args)
  {
    var words := [path] + args;
    ghost var before := stdout.text;
    var index := 0;
    while index < |words|
      invariant 0 <= index <= |words| && stdout.text == before + Printed(words, index)
    {
      ok := WriteWord(words, index, stdout, before);
      if !ok {
        return;
      }
      index := index + 1;
    }
    assert words[1..index] == words[1..];
    ok := stdout.WriteString("\n");
    assert before + Printed(words, index) + "\n" == before + Line(words);
  }

  /** A partial write of `s` stays within the line that `s` and `more` continue. */
  lemma PrefixWithin(text: string, now: string, s: string, more: string, line: string)
    requires now <= text + s && text + s + more <= line
    ensures now <= line
  {
    assert now <= text + s + more;
  }

  // ---------- Splitting ----------

  /** Characters that mean something to the shell outside quotes, and NUL, which no word can hold. */
  predicate Special(c: char) {
    c in "|&;<>()$`*?[#~=%" || c == '\0'
  }

  predicate Ends(c: char) {
    c == ' ' || c == '\t' || c == '\n'
  }

  /** Puts text in front of the word being read. */
  function Before(text: string, r: Option<(string, string)>): Option<(string, string)> {
    if r.None? then None else Some((text + r.value.0, r.value.1))
  }

  /** The rest of a word from outside quotes, and the text behind it; None for what is not a plain word. */
  function Word(s: string): (r: Option<(string, string)>)
    ensures r.Some? ==> |r.value.1| <= |s|
    decreases |s|
  {
    if s == "" || Ends(s[0]) then Some(("", s))
    else if s[0] == '\'' then SingleQuoted(s[1..])
    else if s[0] == '"' then DoubleQuoted(s[1..])
    else if s[0] == '\\' then
      if |s| == 1 || s[1] == '\0' then None
      else if s[1] == '\n' then Word(s[2..])
      else Before([s[1]], Word(s[2..]))
    else if Special(s[0]) then None
    else Before([s[0]], Word(s[1..]))
  }

  /** Section 2.2.2: every character up to the next single quote is literal. */
  function SingleQuoted(s: string): (r: Option<(string, string)>)
    ensures r.Some? ==> |r.value.1| < |s|
    decreases |s|
  {
    if s == "" || s[0] == '\0' then None
    else if s[0] == '\'' then Word(s[1..])
    else Before([s[0]], SingleQuoted(s[1..]))
  }

  /** Section 2.2.3, without expansions: a backslash quotes only dollar, backquote, quote, backslash and newline. */
  function DoubleQuoted(s: string): (r: Option<(string, string)>)
    ensures r.Some? ==> |r.value.1| < |s|
    decreases |s|
  {
    if s == "" || s[0] in "$`" || s[0] == '\0' then None
    else if s[0] == '"' then Word(s[1..])
    else if s[0] == '\\' && |s| > 1 && s[1] == '\n' then DoubleQuoted(s[2..])
    else if s[0] == '\\' && |s| > 1 && s[1] in "$`\"\\" then Before([s[1]], DoubleQuoted(s[2..]))
    else Before([s[0]], DoubleQuoted(s[1..]))
  }

  /** Section 2.3: the words up to the end of the line, and the text behind the line. */
  function Split(s: string): Option<(seq<string>, string)>
    decreases |s|
  {
    if s == "" then Some(([], ""))
    else if s[0] == '\n' then Some(([], s[1..]))
    else if Ends(s[0]) then Split(s[1..])
    else
      var w := Word(s);
      if w.None? || |w.value.1| >= |s| then None
      else
        var rest := Split(w.value.1);
        if rest.None? then None else Some(([w.value.0] + rest.value.0, rest.value.1))
  }

  // ---------- The round trip ----------

  predicate NulFree(word: string) {
    forall i :: 0 <= i < |word| ==> word[i] != '\0'
  }

  /** Inside single quotes the escaped word is read back, whatever follows it. */
  lemma {:induction false} EscapedReadsBack(word: string, rest: string)
    requires NulFree(word)
    ensures SingleQuoted(Escaped(word) + ("'" + rest)) == Before(word, Word(rest))
    decreases |word|
  {
    var s := Escaped(word) + ("'" + rest);
    if word == "" {
      assert s[1..] == rest;
      if Word(rest).Some? { assert "" + Word(rest).value.0 == Word(rest).value.0; }
    } else {
      var next := Escaped(word[1..]) + ("'" + rest);
      EscapedReadsBack(word[1..], rest);
      if word[0] == '\'' {
        QuoteReadsBack(next);
        assert s == "'\"'\"'" + next;
      } else {
        assert s[0] == word[0] && s[1..] == next;
      }
      if Word(rest).Some? {
        assert [word[0]] + (word[1..] + Word(rest).value.0) == word + Word(rest).value.0;
      }
    }
  }

  /** The printed form of one single quote, from inside single quotes back to inside single quotes. */
  lemma QuoteReadsBack(next: string)
    ensures SingleQuoted("'\"'\"'" + next) == Before("'", SingleQuoted(next))
  {
    var s := "'\"'\"'" + next;
    var s1, s2, s3, s4 := "\"'\"'" + next, "'\"'" + next, "\"'" + next, "'" + next;
    assert s[1..] == s1 && s1[1..] == s2 && s2[1..] == s3 && s3[1..] == s4 && s4[1..] == next;
    assert Word(s4) == SingleQuoted(next);
    assert DoubleQuoted(s3) == Word(s4);
    assert DoubleQuoted(s2) == Before("'", DoubleQuoted(s3));
    assert Word(s1) == DoubleQuoted(s2);
  }

  /** A quoted word in front of a blank or newline is one word, also when it is empty. */
  lemma QuotedWord(word: string, rest: string)
    requires NulFree(word) && rest != "" && Ends(rest[0])
    ensures Word(Quote(word) + rest) == Some((word, rest))
  {
    var s := Quote(word) + rest;
    assert s[0] == '\'' && s[1..] == Escaped(word) + ("'" + rest);
    EscapedReadsBack(word, rest);
    assert word + "" == word;
  }

  /** A quoted word becomes the first word of the line it starts. */
  lemma WordSplits(word: string, rest: string, others: seq<string>)
    requires NulFree(word) && rest != "" && Ends(rest[0]) && Split(rest) == Some((others, ""))
    ensures Split(Quote(word) + rest) == Some(([word] + others, ""))
  {
    assert (Quote(word) + rest)[0] == '\'';
    QuotedWord(word, rest);
  }

  lemma {:induction false} FollowingSplits(words: seq<string>)
    requires forall i :: 0 <= i < |words| ==> NulFree(words[i])
    ensures Split(Following(words) + "\n") == Some((words, ""))
    decreases |words|
  {
    var s := Following(words) + "\n";
    if words == [] {
      assert s == "\n" && s[1..] == "";
    } else {
      var rest := Following(words[1..]) + "\n";
      var t := Quote(words[0]) + rest;
      assert s == " " + t && s[1..] == t;
      FollowingSplits(words[1..]);
      WordSplits(words[0], rest, words[1..]);
      assert [words[0]] + words[1..] == words;
    }
  }

  /** For any NUL-free words, empty ones included, the shell reads exactly these words and nothing else. */
  lemma ShowcmdRoundTrip(words: seq<string>)
    requires words != [] && forall i :: 0 <= i < |words| ==> NulFree(words[i])
    ensures Split(Line(words)) == Some((words, ""))
  {
    var rest := Following(words[1..]) + "\n";
    assert Line(words) == Quote(words[0]) + rest;
    FollowingSplits(words[1..]);
    WordSplits(words[0], rest, words[1..]);
    assert [words[0]] + words[1..] == words;
  }

  /** Different commands are printed differently. */
  lemma ShowcmdIsInjective(a: seq<string>, b: seq<string>)
    requires a != [] && b != [] && Line(a) == Line(b)
    requires forall i :: 0 <= i < |a| ==> NulFree(a[i])
    requires forall i :: 0 <= i < |b| ==> NulFree(b[i])
    ensures a == b
  {
    ShowcmdRoundTrip(a);
    ShowcmdRoundTrip(b);
  }
}
