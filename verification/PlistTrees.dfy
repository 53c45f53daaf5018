/**
  The streaming scans of a property list against lookup in its tree, and against the document that
  Render writes (internal/launchd/manage.go, internal/launchd/plist.go).
 */
module PlistTrees {
  import opened Wrappers
  import opened PlistScan

  /** Tokens around the root dict: no other dict starts among them. */
  predicate NoDict(ts: seq<Token>) {
    forall i :: 0 <= i < |ts| ==> ts[i] != Start("dict")
  }

  predicate IsNamed(n: Node, name: string) {
    n.Elem? && n.name == name
  }

  // ---------- The label: the scan as a fold over the root dict's children ----------

  function LabelVerdict(want: bool, found: bool, labelText: string): Result<string, ScanError> {
    if want then Err(LabelWithoutValue)
    else if !found || labelText == "" then Err(MissingLabel)
    else Ok(labelText)
  }

  function TreeLabel(kids: seq<Node>, want: bool, found: bool, labelText: string): Result<string, ScanError> {
    if kids == [] then LabelVerdict(want, found, labelText)
    else if IsNamed(kids[0], "key") then
      TreeLabel(kids[1..], DirectText(kids[0].kids) == "Label", found, labelText)
    else if kids[0].Elem? && want then
      if kids[0].name != "string" then Err(LabelNotString)
      else if found then Err(DuplicateLabel)
      else TreeLabel(kids[1..], false, true, DirectText(kids[0].kids))
    else TreeLabel(kids[1..], want, found, labelText)
  }

  /** Whatever lies deeper than the root dict's children does not change the state of the label scan. */
  lemma {:induction false} LabelSkipsForest(kids: seq<Node>, rest: seq<Token>, complete: bool, st: LabelState)
    requires st.inDict && st.depth >= 2
    ensures LabelFrom(Forest(kids) + rest, complete, st) == LabelFrom(rest, complete, st)
    decreases kids
  {
    if kids == [] {
      assert Forest(kids) + rest == rest;
    } else {
      assert Forest(kids) + rest == Tokens(kids[0]) + (Forest(kids[1..]) + rest);
      LabelSkipsNode(kids[0], Forest(kids[1..]) + rest, complete, st);
      LabelSkipsForest(kids[1..], rest, complete, st);
    }
  }

  lemma {:induction false} LabelSkipsNode(n: Node, rest: seq<Token>, complete: bool, st: LabelState)
    requires st.inDict && st.depth >= 1
    requires st.depth == 1 && n.Elem? ==> n.name != "key" && !st.want
    ensures LabelFrom(Tokens(n) + rest, complete, st) == LabelFrom(rest, complete, st)
    decreases n
  {
    var all := Tokens(n) + rest;
    if n.Elem? {
      var tail := [End(n.name)] + rest;
      assert all[0] == Start(n.name) && all[1..] == Forest(n.kids) + tail;
      LabelSkipsForest(n.kids, tail, complete, st.(depth := st.depth + 1));
      assert tail[0] == End(n.name) && tail[1..] == rest;
      assert st.(depth := st.depth + 1).(depth := st.depth, inDict := true) == st;
    } else {
      assert all[1..] == rest;
    }
  }

  /** An element that the scan decodes: the tokens after its end follow. */
  lemma DecodeElem(n: Node, rest: seq<Token>)
    requires n.Elem?
    ensures (Tokens(n) + rest)[0] == Start(n.name)
    ensures Decode((Tokens(n) + rest)[1..], 0) == Some((DirectText(n.kids), rest))
  {
    var tail := [End(n.name)] + rest;
    assert Tokens(n) == [Start(n.name)] + Forest(n.kids) + [End(n.name)];
    assert Tokens(n) + rest == [Start(n.name)] + (Forest(n.kids) + tail);
    DecodeForest(n.kids, tail, 0);
    assert tail[1..] == rest;
    assert Decode(tail, 0) == Some(("", rest));
    assert DirectText(n.kids) + "" == DirectText(n.kids);
  }

  /** After the root dict nothing starts another one, so the verdict stands. */
  lemma {:induction false} LabelAfterDict(post: seq<Token>, st: LabelState)
    requires NoDict(post) && !st.inDict
    ensures LabelFrom(post, true, st) == LabelVerdict(st.want, st.found, st.labelText)
    decreases |post|
  {
    if post != [] {
      assert NoDict(post[1..]);
      LabelAfterDict(post[1..], st);
      if post[0].Start? { assert post[0] != Start("dict"); }
    }
  }

  /** The scan over the children of the root dict is the fold over them. */
  lemma {:induction false} LabelScanIsFold(
      kids: seq<Node>, post: seq<Token>, want: bool, found: bool, labelText: string)
    requires NoDict(post)
    ensures LabelFrom(Forest(kids) + ([End("dict")] + post), true, LabelState(true, 1, want, found, labelText))
      == TreeLabel(kids, want, found, labelText)
    decreases kids
  {
    var st := LabelState(true, 1, want, found, labelText);
    var tail := [End("dict")] + post;
    if kids == [] {
      assert Forest(kids) + tail == tail && tail[1..] == post;
      LabelAfterDict(post, st.(depth := 0, inDict := false));
    } else {
      var n, rest := kids[0], Forest(kids[1..]) + tail;
      assert Forest(kids) + tail == Tokens(n) + rest;
      if IsNamed(n, "key") {
        DecodeElem(n, rest);
        LabelScanIsFold(kids[1..], post, DirectText(n.kids) == "Label", found, labelText);
      } else if n.Elem? && want {
        if n.name == "string" && !found {
          DecodeElem(n, rest);
          LabelScanIsFold(kids[1..], post, false, true, DirectText(n.kids));
        }
      } else {
        LabelSkipsNode(n, rest, true, st);
        LabelScanIsFold(kids[1..], post, want, found, labelText);
      }
    }
  }

  /** Before the first dict the scan only waits. */
  lemma {:induction false} LabelBeforeDict(pre: seq<Token>, rest: seq<Token>)
    requires NoDict(pre)
    ensures LabelFrom(pre + rest, true, LABEL_START) == LabelFrom(rest, true, LABEL_START)
    decreases |pre|
  {
    if pre == [] {
      assert pre + rest == rest;
    } else {
      assert (pre + rest)[1..] == pre[1..] + rest && (pre + rest)[0] == pre[0];
      LabelBeforeDict(pre[1..], rest);
    }
  }

  // ---------- The arguments: the scan as a fold ----------

  /** The element is an array or has one anywhere inside. */
  predicate HasArray(n: Node) {
    n.Elem? && (n.name == "array" || AnyHasArray(n.kids))
  }

  predicate AnyHasArray(kids: seq<Node>) {
    kids != [] && (HasArray(kids[0]) || AnyHasArray(kids[1..]))
  }

  /** What the scan takes from an array: its strings, up to the first other child with an array in it. */
  function ScannedStrings(kids: seq<Node>): seq<string> {
    if kids == [] then []
    else if IsNamed(kids[0], "string") then [DirectText(kids[0].kids)] + ScannedStrings(kids[1..])
    else if HasArray(kids[0]) then []
    else ScannedStrings(kids[1..])
  }

  /** All strings directly in an array, in order. */
  function Strings(kids: seq<Node>): seq<string> {
    if kids == [] then []
    else (if IsNamed(kids[0], "string") then [DirectText(kids[0].kids)] else []) + Strings(kids[1..])
  }

  function TreeArgs(kids: seq<Node>, want: bool): seq<string> {
    if kids == [] then []
    else if IsNamed(kids[0], "key") then TreeArgs(kids[1..], DirectText(kids[0].kids) == "ProgramArguments")
    else if IsNamed(kids[0], "array") && want then ScannedStrings(kids[0].kids) + TreeArgs(kids[1..], false)
    else TreeArgs(kids[1..], want)
  }

  /** The state after a forest, or after its first array's end, which leaves the array being scanned. */
  function Left(st: ArgsState, ended: bool): ArgsState {
    if st.inArray && ended then st.(inArray := false, want := false) else st
  }

  lemma {:induction false} ArgsSkipForest(kids: seq<Node>, rest: seq<Token>, complete: bool, st: ArgsState)
    requires st.inDict && (if st.inArray then st.depth >= 3 else st.depth >= 2)
    ensures ArgsFrom(Forest(kids) + rest, complete, st) == ArgsFrom(rest, complete, Left(st, AnyHasArray(kids)))
    decreases kids
  {
    if kids == [] {
      assert Forest(kids) + rest == rest;
    } else {
      assert Forest(kids) + rest == Tokens(kids[0]) + (Forest(kids[1..]) + rest);
      ArgsSkipNode(kids[0], Forest(kids[1..]) + rest, complete, st);
      ArgsSkipForest(kids[1..], rest, complete, Left(st, HasArray(kids[0])));
    }
  }

  lemma {:induction false} ArgsSkipNode(n: Node, rest: seq<Token>, complete: bool, st: ArgsState)
    requires st.inDict && (if st.inArray then st.depth >= 2 else st.depth >= 1)
    requires st.inArray && st.depth == 2 && n.Elem? ==> n.name != "string"
    requires st.depth == 1 && n.Elem? ==> n.name != "key" && (st.want ==> n.name != "array")
    ensures ArgsFrom(Tokens(n) + rest, complete, st) == ArgsFrom(rest, complete, Left(st, HasArray(n)))
    decreases n
  {
    var all := Tokens(n) + rest;
    if n.Elem? {
      var tail := [End(n.name)] + rest;
      var inner := st.(depth := st.depth + 1);
      assert all[0] == Start(n.name) && all[1..] == Forest(n.kids) + tail;
      ArgsSkipForest(n.kids, tail, complete, inner);
      assert tail[0] == End(n.name) && tail[1..] == rest;
    } else {
      assert all[1..] == rest;
    }
  }

  /** One string element of the array being scanned. */
  lemma ArgsTakeString(n: Node, rest: seq<Token>, complete: bool, st: ArgsState)
    requires st.inDict && st.depth == 2 && st.inArray && IsNamed(n, "string")
    ensures ArgsFrom(Tokens(n) + rest, complete, st)
      == ArgsFrom(rest, complete, st.(args := st.args + [DirectText(n.kids)]))
  {
    DecodeElem(n, rest);
  }

  /** The end of the array, whether or not the scan has left it before. */
  lemma ArgsEndArray(rest: seq<Token>, complete: bool, st: ArgsState)
    requires st.inDict && st.depth == 2 && (!st.inArray ==> !st.want)
    ensures ArgsFrom([End("array")] + rest, complete, st)
      == ArgsFrom(rest, complete, ArgsState(true, 1, false, false, st.args))
  {
    var tail := [End("array")] + rest;
    assert tail[0] == End("array") && tail[1..] == rest;
  }

  /** The scan inside the array collects exactly `ScannedStrings`, and leaves the array at its end. */
  lemma {:induction false} ArgsInArray(kids: seq<Node>, rest: seq<Token>, complete: bool, st: ArgsState)
    requires st.inDict && st.depth == 2 && st.inArray
    ensures ArgsFrom(Forest(kids) + ([End("array")] + rest), complete, st)
      == ArgsFrom(rest, complete, ArgsState(true, 1, false, false, st.args + ScannedStrings(kids)))
    decreases kids
  {
    var tail := [End("array")] + rest;
    if kids == [] {
      assert Forest(kids) + tail == tail && st.args + [] == st.args;
      ArgsEndArray(rest, complete, st);
    } else {
      var n, next := kids[0], Forest(kids[1..]) + tail;
      assert Forest(kids) + tail == Tokens(n) + next;
      if IsNamed(n, "string") {
        var text := DirectText(n.kids);
        ArgsTakeString(n, next, complete, st);
        ArgsInArray(kids[1..], rest, complete, st.(args := st.args + [text]));
        assert st.args + [text] + ScannedStrings(kids[1..]) == st.args + ScannedStrings(kids);
      } else {
        ArgsSkipNode(n, next, complete, st);
        if HasArray(n) {
          var left := st.(inArray := false, want := false);
          ArgsSkipForest(kids[1..], tail, complete, left);
          ArgsEndArray(rest, complete, left);
          assert st.args + [] == st.args;
        } else {
          ArgsInArray(kids[1..], rest, complete, st);
        }
      }
    }
  }

  lemma {:induction false} ArgsAfterDict(post: seq<Token>, st: ArgsState)
    requires NoDict(post) && !st.inDict
    ensures ArgsFrom(post, true, st) == if st.args == [] then Err(MissingArguments) else Ok(st.args)
    decreases |post|
  {
    if post != [] {
      assert NoDict(post[1..]);
      ArgsAfterDict(post[1..], st);
      if post[0].Start? { assert post[0] != Start("dict"); }
    }
  }

  /** A key of the root dict decides whether the next array is wanted. */
  lemma ArgsReadKey(n: Node, rest: seq<Token>, complete: bool, st: ArgsState)
    requires st.inDict && st.depth == 1 && !st.inArray && IsNamed(n, "key")
    ensures ArgsFrom(Tokens(n) + rest, complete, st)
      == ArgsFrom(rest, complete, st.(want := DirectText(n.kids) == "ProgramArguments"))
  {
    DecodeElem(n, rest);
  }

  /** The wanted array, from its start tag to its end tag. */
  lemma ArgsReadArray(n: Node, rest: seq<Token>, complete: bool, args: seq<string>)
    requires IsNamed(n, "array")
    ensures ArgsFrom(Tokens(n) + rest, complete, ArgsState(true, 1, true, false, args))
      == ArgsFrom(rest, complete, ArgsState(true, 1, false, false, args + ScannedStrings(n.kids)))
  {
    var all := Tokens(n) + rest;
    assert all[0] == Start("array") && all[1..] == Forest(n.kids) + ([End("array")] + rest);
    ArgsInArray(n.kids, rest, complete, ArgsState(true, 2, true, true, args));
  }

  lemma {:induction false} ArgsScanIsFold(kids: seq<Node>, post: seq<Token>, want: bool, args: seq<string>)
    requires NoDict(post)
    ensures ArgsFrom(Forest(kids) + ([End("dict")] + post), true, ArgsState(true, 1, want, false, args))
      == var all := args + TreeArgs(kids, want); if all == [] then Err(MissingArguments) else Ok(all)
    decreases kids
  {
    var st := ArgsState(true, 1, want, false, args);
    var tail := [End("dict")] + post;
    if kids == [] {
      assert Forest(kids) + tail == tail && tail[1..] == post && args + [] == args;
      ArgsAfterDict(post, st.(depth := 0, inDict := false));
    } else {
      var n, rest := kids[0], Forest(kids[1..]) + tail;
      assert Forest(kids) + tail == Tokens(n) + rest;
      if IsNamed(n, "key") {
        ArgsReadKey(n, rest, true, st);
        ArgsScanIsFold(kids[1..], post, DirectText(n.kids) == "ProgramArguments", args);
      } else if IsNamed(n, "array") && want {
        var strings := ScannedStrings(n.kids);
        ArgsReadArray(n, rest, true, args);
        ArgsScanIsFold(kids[1..], post, false, args + strings);
        assert args + strings + TreeArgs(kids[1..], false) == args + TreeArgs(kids, want);
      } else {
        ArgsSkipNode(n, rest, true, st);
        ArgsScanIsFold(kids[1..], post, want, args);
      }
    }
  }

  lemma {:induction false} ArgsBeforeDict(pre: seq<Token>, rest: seq<Token>)
    requires NoDict(pre)
    ensures ArgsFrom(pre + rest, true, ARGS_START) == ArgsFrom(rest, true, ARGS_START)
    decreases |pre|
  {
    if pre == [] {
      assert pre + rest == rest;
    } else {
      assert (pre + rest)[1..] == pre[1..] + rest && (pre + rest)[0] == pre[0];
      ArgsBeforeDict(pre[1..], rest);
    }
  }

  /** On a document with one root dict, both scans are folds over that dict's children. */
  lemma ScansAreFolds(pre: seq<Token>, kids: seq<Node>, post: seq<Token>)
    requires NoDict(pre) && NoDict(post)
    ensures var ts := pre + Tokens(Elem("dict", kids)) + post;
      && LabelFrom(ts, true, LABEL_START) == TreeLabel(kids, false, false, "")
      && ArgsFrom(ts, true, ARGS_START)
         == var args := TreeArgs(kids, false); if args == [] then Err(MissingArguments) else Ok(args)
  {
    var inner := Forest(kids) + ([End("dict")] + post);
    var rest := [Start("dict")] + inner;
    assert pre + Tokens(Elem("dict", kids)) + post == pre + rest;
    assert rest[1..] == inner;
    LabelBeforeDict(pre, rest);
    LabelScanIsFold(kids, post, false, false, "");
    ArgsBeforeDict(pre, rest);
    ArgsScanIsFold(kids, post, false, []);
    assert [] + TreeArgs(kids, false) == TreeArgs(kids, false);
  }

  // ---------- Lookup in a well-formed dict ----------

  datatype Entry = Entry(key: string, value: Node)

  /** The entries of a dict whose children are keys, each followed by its value; None for any other. */
  function Entries(kids: seq<Node>, pending: Option<string>): Option<seq<Entry>> {
    if kids == [] then (if pending.None? then Some([]) else None)
    else if !kids[0].Elem? then Entries(kids[1..], pending)
    else if kids[0].name == "key" then
      if pending.Some? then None else Entries(kids[1..], Some(DirectText(kids[0].kids)))
    else if pending.None? then None
    else
      var rest := Entries(kids[1..], None);
      if rest.None? then None else Some([Entry(pending.value, kids[0])] + rest.value)
  }

  /** The values under `key`. */
  function Lookup(entries: seq<Entry>, key: string): seq<Node> {
    if entries == [] then []
    else (if entries[0].key == key then [entries[0].value] else []) + Lookup(entries[1..], key)
  }

  predicate IsString(n: Node, text: string) {
    IsNamed(n, "string") && DirectText(n.kids) == text
  }

  function LookupLabel(values: seq<Node>, found: bool, labelText: string): Result<string, ScanError> {
    if values == [] then LabelVerdict(false, found, labelText)
    else if !IsNamed(values[0], "string") then Err(LabelNotString)
    else if found then Err(DuplicateLabel)
    else LookupLabel(values[1..], true, DirectText(values[0].kids))
  }

  lemma {:induction false} LabelFoldIsLookup(kids: seq<Node>, pending: Option<string>, found: bool, labelText: string)
    requires Entries(kids, pending).Some?
    ensures TreeLabel(kids, pending == Some("Label"), found, labelText)
      == LookupLabel(Lookup(Entries(kids, pending).value, "Label"), found, labelText)
    decreases kids
  {
    if kids == [] {
    } else if !kids[0].Elem? {
      LabelFoldIsLookup(kids[1..], pending, found, labelText);
    } else if kids[0].name == "key" {
      LabelFoldIsLookup(kids[1..], Some(DirectText(kids[0].kids)), found, labelText);
    } else {
      var es, rest := Entries(kids, pending).value, Entries(kids[1..], None).value;
      assert es[1..] == rest;
      var tail := Lookup(rest, "Label");
      if pending == Some("Label") {
        assert Lookup(es, "Label") == [kids[0]] + tail && ([kids[0]] + tail)[1..] == tail;
        if kids[0].name == "string" && !found {
          LabelFoldIsLookup(kids[1..], None, true, DirectText(kids[0].kids));
        }
      } else {
        assert Lookup(es, "Label") == [] + tail == tail;
        LabelFoldIsLookup(kids[1..], None, found, labelText);
      }
    }
  }

  /** What the scan takes from every array under the key, in order. */
  function ScannedArrays(values: seq<Node>): seq<string> {
    if values == [] then []
    else (if IsNamed(values[0], "array") then ScannedStrings(values[0].kids) else []) + ScannedArrays(values[1..])
  }

  lemma {:induction false} ArgsFoldIsLookup(kids: seq<Node>, pending: Option<string>)
    requires Entries(kids, pending).Some?
    ensures TreeArgs(kids, pending == Some("ProgramArguments"))
      == ScannedArrays(Lookup(Entries(kids, pending).value, "ProgramArguments"))
    decreases kids
  {
    if kids == [] {
    } else if !kids[0].Elem? {
      ArgsFoldIsLookup(kids[1..], pending);
    } else if kids[0].name == "key" {
      ArgsFoldIsLookup(kids[1..], Some(DirectText(kids[0].kids)));
    } else {
      var es, rest := Entries(kids, pending).value, Entries(kids[1..], None).value;
      assert es[1..] == rest;
      var tail := Lookup(rest, "ProgramArguments");
      ArgsFoldIsLookup(kids[1..], None);
      if pending == Some("ProgramArguments") {
        assert Lookup(es, "ProgramArguments") == [kids[0]] + tail && ([kids[0]] + tail)[1..] == tail;
        WantFades(kids[1..]);
        assert [] + TreeArgs(kids[1..], false) == TreeArgs(kids[1..], false);
      } else {
        assert Lookup(es, "ProgramArguments") == [] + tail == tail;
      }
    }
  }

  /** Before the next key of a well-formed dict there is no value, so a pending wish does not matter. */
  lemma {:induction false} WantFades(kids: seq<Node>)
    requires Entries(kids, None).Some?
    ensures TreeArgs(kids, true) == TreeArgs(kids, false)
    decreases kids
  {
    if kids != [] && !kids[0].Elem? { WantFades(kids[1..]); }
  }

  /**
    The label scan of a document with one well-formed root dict, whatever nested dicts and arrays
    contain: it succeeds with `l` exactly when the dict has one entry Label, a string with text `l`.
   */
  lemma LabelIsLookup(pre: seq<Token>, kids: seq<Node>, post: seq<Token>, l: string)
    requires NoDict(pre) && NoDict(post) && Entries(kids, None).Some?
    ensures LabelFrom(pre + Tokens(Elem("dict", kids)) + post, true, LABEL_START) == Ok(l) <==>
      var values := Lookup(Entries(kids, None).value, "Label");
      l != "" && |values| == 1 && IsString(values[0], l)
  {
    ScansAreFolds(pre, kids, post);
    LabelFoldIsLookup(kids, None, false, "");
    var values := Lookup(Entries(kids, None).value, "Label");
    if |values| > 1 && IsNamed(values[0], "string") {
      assert LookupLabel(values[1..], true, DirectText(values[0].kids)).Err?;
    }
  }

  /** The argument scan likewise: the strings of the arrays under ProgramArguments, or an error when there are none. */
  lemma ArgumentsAreLookup(pre: seq<Token>, kids: seq<Node>, post: seq<Token>)
    requires NoDict(pre) && NoDict(post) && Entries(kids, None).Some?
    ensures ArgsFrom(pre + Tokens(Elem("dict", kids)) + post, true, ARGS_START)
      == var args := ScannedArrays(Lookup(Entries(kids, None).value, "ProgramArguments"));
         if args == [] then Err(MissingArguments) else Ok(args)
  {
    ScansAreFolds(pre, kids, post);
    ArgsFoldIsLookup(kids, None);
  }

  /** Some string of the array comes after a child that has an array in it. */
  predicate StringAfterNestedArray(kids: seq<Node>) {
    kids != [] &&
    if !IsNamed(kids[0], "string") && HasArray(kids[0]) then Strings(kids[1..]) != []
    else StringAfterNestedArray(kids[1..])
  }

  /** The scan takes all strings of an array exactly when none of them follows a nested array. */
  lemma {:induction false} AllStringsExactly(kids: seq<Node>)
    ensures |ScannedStrings(kids)| <= |Strings(kids)|
    ensures ScannedStrings(kids) == Strings(kids) <==> !StringAfterNestedArray(kids)
    decreases kids
  {
    if kids != [] {
      AllStringsExactly(kids[1..]);
      if IsNamed(kids[0], "string") {
        var text := [DirectText(kids[0].kids)];
        assert text + ScannedStrings(kids[1..]) == text + Strings(kids[1..]) ==>
            ScannedStrings(kids[1..]) == Strings(kids[1..]) by {
          assert (text + ScannedStrings(kids[1..]))[1..] == ScannedStrings(kids[1..]);
          assert (text + Strings(kids[1..]))[1..] == Strings(kids[1..]);
        }
      } else {
        assert Strings(kids) == [] + Strings(kids[1..]) == Strings(kids[1..]);
      }
    }
  }

  /**
    End to end: with one entry ProgramArguments that holds an array, the scan of the document returns
    all strings of that array exactly when there are any and none of them follows a nested array.
   */
  lemma OneArrayExactly(pre: seq<Token>, kids: seq<Node>, post: seq<Token>, args: Node)
    requires NoDict(pre) && NoDict(post) && Entries(kids, None).Some? && IsNamed(args, "array")
    requires Lookup(Entries(kids, None).value, "ProgramArguments") == [args]
    ensures ArgsFrom(pre + Tokens(Elem("dict", kids)) + post, true, ARGS_START) == Ok(Strings(args.kids)) <==>
      Strings(args.kids) != [] && !StringAfterNestedArray(args.kids)
  {
    ArgumentsAreLookup(pre, kids, post);
    assert [args][1..] == [] && ScannedStrings(args.kids) + [] == ScannedStrings(args.kids);
    AllStringsExactly(args.kids);
  }

  /** A nested array cuts the arguments short. */
  lemma NestedArrayCutsArguments(a: string, b: string)
    ensures var kids := [Elem("string", [Chars(a)]), Elem("array", []), Elem("string", [Chars(b)])];
      |ScannedStrings(kids)| == 1 && |Strings(kids)| == 2
  {
    var kids := [Elem("string", [Chars(a)]), Elem("array", []), Elem("string", [Chars(b)])];
    assert kids[1..] == [Elem("array", []), Elem("string", [Chars(b)])];
    assert kids[1..][1..] == [Elem("string", [Chars(b)])];
    assert HasArray(kids[1..][0]);
    assert ScannedStrings(kids[1..]) == [];
    assert Strings(kids[1..]) == [] + Strings(kids[1..][1..]);
    assert Strings(kids[1..][1..][1..]) == [];
  }
}
