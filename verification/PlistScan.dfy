/**
  The two streaming scans of a launchd property list (internal/launchd/manage.go), over the tokens of
  an XML decoder.  Escaped text is taken as the decoder returns it, with the escaping undone.
 */
module PlistScan {
  import opened Wrappers

  datatype Token = Start(name: string) | End(name: string) | Text(text: string) | Misc

  /** Malformed: the decoder reports a syntax error.  The others are the scans' own errors. */
  datatype ScanError = Malformed | LabelNotString | DuplicateLabel | LabelWithoutValue | MissingLabel | MissingArguments

  // ---------- Documents ----------

  datatype Node = Elem(name: string, kids: seq<Node>) | Chars(text: string) | Comment

  function Tokens(n: Node): (ts: seq<Token>)
    ensures ts != []
  {
    match n
    case Elem(name, kids) => [Start(name)] + Forest(kids) + [End(name)]
    case Chars(text) => [Text(text)]
    case Comment => [Misc]
  }

  function Forest(kids: seq<Node>): seq<Token> {
    if kids == [] then [] else Tokens(kids[0]) + Forest(kids[1..])
  }

  /** What `DecodeElement` into a string takes from an element: the text directly inside it. */
  function DirectText(kids: seq<Node>): string {
    if kids == [] then "" else (if kids[0].Chars? then kids[0].text else "") + DirectText(kids[1..])
  }

  /** `DecodeElement` on tokens, `depth` elements below its own: the text, and the tokens after its end. */
  function Decode(ts: seq<Token>, depth: nat): (r: Option<(string, seq<Token>)>)
    ensures r.Some? ==> |r.value.1| < |ts|
    decreases |ts|
  {
    if ts == [] then None
    else if ts[0].End? && depth == 0 then Some(("", ts[1..]))
    else
      var rest := Decode(ts[1..], if ts[0].Start? then depth + 1 else if ts[0].End? then depth - 1 else depth);
      if rest.None? then None
      else Some(((if ts[0].Text? && depth == 0 then ts[0].text else "") + rest.value.0, rest.value.1))
  }

  // ---------- The scan for the label ----------

  datatype LabelState = LabelState(inDict: bool, depth: int, want: bool, found: bool, labelText: string)

  const LABEL_START := LabelState(false, 0, false, false, "")

  /** The rest of the scan over the tokens `ts`; `complete` when the decoder then reports end of file. */
  function LabelFrom(ts: seq<Token>, complete: bool, st: LabelState): Result<string, ScanError>
    decreases |ts|
  {
    if ts == [] then
      if !complete then Err(Malformed)
      else if st.want then Err(LabelWithoutValue)
      else if !st.found || st.labelText == "" then Err(MissingLabel)
      else Ok(st.labelText)
    else if ts[0].Start? then
      if ts[0].name == "dict" && !st.inDict then LabelFrom(ts[1..], complete, st.(inDict := true, depth := 1))
      else if !st.inDict then LabelFrom(ts[1..], complete, st)
      else if st.depth == 1 && ts[0].name == "key" then
        var text := Decode(ts[1..], 0);
        if text.None? then Err(Malformed)
        else LabelFrom(text.value.1, complete, st.(want := text.value.0 == "Label"))
      else if st.depth == 1 && st.want then
        if ts[0].name != "string" then Err(LabelNotString)
        else if st.found then Err(DuplicateLabel)
        else
          var text := Decode(ts[1..], 0);
          if text.None? then Err(Malformed)
          else LabelFrom(text.value.1, complete, st.(want := false, found := true, labelText := text.value.0))
      else LabelFrom(ts[1..], complete, st.(depth := st.depth + 1))
    else if ts[0].End? && st.inDict then
      LabelFrom(ts[1..], complete, st.(depth := st.depth - 1, inDict := st.depth != 1))
    else LabelFrom(ts[1..], complete, st)
  }

  /** `plistLabel` */
  method PlistLabel(tokens: seq<Token>, complete: bool) returns (r: Result<string, ScanError>)
    ensures r == LabelFrom(tokens, complete, LABEL_START)
  {
    var inDict, depth := false, 0;
    var wantValue, found, text := false, false, "";
    var rest := tokens;
    while rest != []
      invariant LabelFrom(tokens, complete, LABEL_START)
        == LabelFrom(rest, complete, LabelState(inDict, depth, wantValue, found, text))
      decreases |rest|
    {
      var token := rest[0];
      rest := rest[1..];
      if token.Start? {
        if token.name == "dict" && !inDict {
          inDict, depth := true, 1;
          continue;
        }
        if !inDict {
          continue;
        }
        depth := depth + 1;
        if depth == 2 && token.name == "key" {
          var key := Decode(rest, 0);
          if key.None? {
            return Err(Malformed);
          }
          rest, depth, wantValue := key.value.1, depth - 1, key.value.0 == "Label";
          continue;
        }
        if depth == 2 && wantValue {
          if token.name != "string" {
            return Err(LabelNotString);
          }
          if found {
            return Err(DuplicateLabel);
          }
          var value := Decode(rest, 0);
          if value.None? {
            return Err(Malformed);
          }
          rest, depth, wantValue, found, text := value.value.1, depth - 1, false, true, value.value.0;
        }
      } else if token.End? {
        if inDict {
          depth := depth - 1;
          if depth == 0 {
            inDict := false;
          }
        }
      }
    }
    if !complete {
      return Err(Malformed);
    }
    if wantValue {
      return Err(LabelWithoutValue);
    }
    if !found || text == "" {
      return Err(MissingLabel);
    }
    return Ok(text);
  }

  // ---------- The scan for the program arguments ----------

  datatype ArgsState = ArgsState(inDict: bool, depth: int, want: bool, inArray: bool, args: seq<string>)

  const ARGS_START := ArgsState(false, 0, false, false, [])

  function ArgsFrom(ts: seq<Token>, complete: bool, st: ArgsState): Result<seq<string>, ScanError>
    decreases |ts|
  {
    if ts == [] then
      if !complete then Err(Malformed)
      else if st.args == [] then Err(MissingArguments)
      else Ok(st.args)
    else if ts[0].Start? then
      if ts[0].name == "dict" && !st.inDict then ArgsFrom(ts[1..], complete, st.(inDict := true, depth := 1))
      else if !st.inDict then ArgsFrom(ts[1..], complete, st)
      else if !st.inArray && st.depth == 1 && ts[0].name == "key" then
        var text := Decode(ts[1..], 0);
        if text.None? then Err(Malformed)
        else ArgsFrom(text.value.1, complete, st.(want := text.value.0 == "ProgramArguments"))
      else if st.want && !st.inArray && st.depth == 1 && ts[0].name == "array" then
        ArgsFrom(ts[1..], complete, st.(depth := 2, inArray := true))
      else if st.inArray && st.depth == 2 && ts[0].name == "string" then
        var text := Decode(ts[1..], 0);
        if text.None? then Err(Malformed)
        else ArgsFrom(text.value.1, complete, st.(args := st.args + [text.value.0]))
      else ArgsFrom(ts[1..], complete, st.(depth := st.depth + 1))
    else if ts[0].End? && st.inDict then
      var ends := st.inArray && ts[0].name == "array";
      ArgsFrom(ts[1..], complete, st.(depth := st.depth - 1, inDict := st.depth != 1,
                                      inArray := st.inArray && !ends, want := st.want && !ends))
    else ArgsFrom(ts[1..], complete, st)
  }

  /** `plistProgramArguments` */
  method PlistProgramArguments(tokens: seq<Token>, complete: bool) returns (r: Result<seq<string>, ScanError>)
    ensures r == ArgsFrom(tokens, complete, ARGS_START)
  {
    var inDict, depth := false, 0;
    var wantArray, inArray := false, false;
    var args: seq<string> := [];
    var rest := tokens;
    while rest != []
      invariant ArgsFrom(tokens, complete, ARGS_START)
        == ArgsFrom(rest, complete, ArgsState(inDict, depth, wantArray, inArray, args))
      decreases |rest|
    {
      var token := rest[0];
      rest := rest[1..];
      if token.Start? {
        if token.name == "dict" && !inDict {
          inDict, depth := true, 1;
          continue;
        }
        if !inDict {
          continue;
        }
        depth := depth + 1;
        if !inArray && depth == 2 && token.name == "key" {
          var key := Decode(rest, 0);
          if key.None? {
            return Err(Malformed);
          }
          rest, depth, wantArray := key.value.1, depth - 1, key.value.0 == "ProgramArguments";
          continue;
        }
        if wantArray && !inArray && depth == 2 && token.name == "array" {
          inArray := true;
          continue;
        }
        if inArray && depth == 3 && token.name == "string" {
          var arg := Decode(rest, 0);
          if arg.None? {
            return Err(Malformed);
          }
          rest, args, depth := arg.value.1, args + [arg.value.0], depth - 1;
        }
      } else if token.End? {
        if inDict {
          depth := depth - 1;
          if depth == 0 {
            inDict := false;
          }
          if inArray && token.name == "array" {
            inArray, wantArray := false, false;
          }
        }
      }
    }
    if !complete {
      return Err(Malformed);
    }
    return if args == [] then Err(MissingArguments) else Ok(args);
  }

  // ---------- Streams and trees ----------

  /** Decoding an element's tokens yields its direct text and stops right after its end tag. */
  lemma {:induction false} DecodeForest(kids: seq<Node>, rest: seq<Token>, depth: nat)
    ensures Decode(Forest(kids) + rest, depth)
      == match Decode(rest, depth) {
           case None => None
           case Some(p) => Some(((if depth == 0 then DirectText(kids) else "") + p.0, p.1))
         }
    decreases kids
  {
    if kids == [] {
      assert Forest(kids) + rest == rest;
      if Decode(rest, depth).Some? { assert "" + Decode(rest, depth).value.0 == Decode(rest, depth).value.0; }
    } else {
      DecodeForest(kids[1..], rest, depth);
      assert Forest(kids) + rest == Tokens(kids[0]) + (Forest(kids[1..]) + rest);
      DecodeNode(kids[0], Forest(kids[1..]) + rest, depth);
      TextAssociates(kids, rest, depth);
    }
  }

  lemma TextAssociates(kids: seq<Node>, rest: seq<Token>, depth: nat)
    requires kids != []
    ensures Decode(rest, depth).Some? ==>
      (if kids[0].Chars? then kids[0].text else "") + (DirectText(kids[1..]) + Decode(rest, depth).value.0)
      == DirectText(kids) + Decode(rest, depth).value.0
    ensures Decode(rest, depth).Some? ==> "" + ("" + Decode(rest, depth).value.0) == "" + Decode(rest, depth).value.0
  {
  }

  /** One node in front of the tokens being decoded adds its text, if it is text at the element's own depth. */
  lemma {:induction false} DecodeNode(n: Node, rest: seq<Token>, depth: nat)
    ensures Decode(Tokens(n) + rest, depth)
      == match Decode(rest, depth) {
           case None => None
           case Some(p) => Some(((if depth == 0 && n.Chars? then n.text else "") + p.0, p.1))
         }
    decreases n
  {
    var all := Tokens(n) + rest;
    if n.Elem? {
      var tail := [End(n.name)] + rest;
      assert all[0] == Start(n.name) && all[1..] == Forest(n.kids) + tail;
      DecodeForest(n.kids, tail, depth + 1);
      assert tail[1..] == rest;
      if Decode(rest, depth).Some? {
        var text := Decode(rest, depth).value.0;
        assert "" + text == text;
      }
    } else {
      assert all[1..] == rest;
    }
  }
}
