/**
  The launchd property list that Render writes (internal/launchd/plist.go), and that both scans read
  back what went in.
 */
module PlistRender {
  import opened Wrappers
  import opened PlistScan
  import opened PlistTrees

  /** `plistData`; None for the parts of the template that a condition leaves out. */
  datatype Data = Data(
    id: string,
    executable: string,
    name: string,
    workDir: string,
    stdoutLog: string,
    stderrLog: string,
    home: string,
    dataRoot: string,
    runtimeRoot: string,
    logRoot: string,
    socketPath: Option<string>,
    exitTimeOut: string,
    keepAlive: bool,
    username: Option<string>)

  /** `Label`: the first twelve characters of the VM's ID behind a fixed prefix. */
  function Label(id: string): string {
    "io.qemu-manage.vm." + if |id| > 12 then id[..12] else id
  }

  /** A character that an XML document can contain. */
  predicate XmlChar(c: char) {
    c == '\t' || c == '\n' || c == '\r' || ' ' <= c <= '\U{D7FF}' || '\U{E000}' <= c <= '\U{FFFD}' || '\U{10000}' <= c
  }

  predicate XmlText(text: string) {
    forall i :: 0 <= i < |text| ==> XmlChar(text[i])
  }

  /** What escaping makes of a text: characters XML cannot contain become the replacement character. */
  function Carried(text: string): (r: string)
    ensures r == text <==> XmlText(text)
  {
    var r := seq(|text|, i requires 0 <= i < |text| => if XmlChar(text[i]) then text[i] else '\U{FFFD}');
    assert r == text ==> forall i :: 0 <= i < |text| ==> r[i] == text[i];
    r
  }

  function CarriedAll(texts: seq<string>): (r: seq<string>)
    ensures |r| == |texts| && forall i :: 0 <= i < |r| ==> r[i] == Carried(texts[i])
  {
    if texts == [] then [] else [Carried(texts[0])] + CarriedAll(texts[1..])
  }

  function Str(text: string): Node {
    Elem("string", [Chars(Carried(text))])
  }

  function StrArray(texts: seq<string>): seq<Node> {
    if texts == [] then [] else [Chars("\n    "), Str(texts[0])] + StrArray(texts[1..])
  }

  function EnvironmentEntries(d: Data): seq<Entry> {
    [Entry("HOME", Str(d.home)),
     Entry("PATH", Str("/opt/homebrew/bin:/usr/bin:/bin:/usr/sbin:/sbin")),
     Entry("QEMU_MANAGE_DATA_ROOT", Str(d.dataRoot)),
     Entry("QEMU_MANAGE_RUNTIME_ROOT", Str(d.runtimeRoot)),
     Entry("QEMU_MANAGE_LOG_ROOT", Str(d.logRoot))]
  }

  /** The children of a dict with these entries, laid out one below the other. */
  function Layout(entries: seq<Entry>): seq<Node> {
    if entries == [] then [Chars("\n")]
    else [Chars("\n  "), Elem("key", [Chars(entries[0].key)]), Chars("\n  "), entries[0].value] + Layout(entries[1..])
  }

  function Arguments(d: Data): seq<string> {
    [d.executable, "start", d.name, "--foreground"]
  }

  /** The entries after ProgramArguments. */
  function OtherEntries(d: Data): seq<Entry> {
    [Entry("WorkingDirectory", Str(d.workDir)),
     Entry("StandardOutPath", Str(d.stdoutLog)),
     Entry("StandardErrorPath", Str(d.stderrLog)),
     Entry("EnvironmentVariables", Elem("dict", Layout(EnvironmentEntries(d)))),
     Entry("RunAtLoad", Elem("true", []))]
    + (if d.socketPath.Some? then [Entry("WatchPaths", Elem("array", StrArray([d.socketPath.value])))] else [])
    + [Entry("ThrottleInterval", Elem("integer", [Chars("30")])),
       Entry("ExitTimeOut", Elem("integer", [Chars(d.exitTimeOut)])),
       Entry("ProcessType", Str("Background")),
       Entry("Umask", Elem("integer", [Chars("63")]))]
    + (if d.keepAlive then
         [Entry("KeepAlive", Elem("dict", Layout([Entry("SuccessfulExit", Elem("false", []))])))] else [])
    + (if d.username.Some? then [Entry("UserName", Str(d.username.value))] else [])
  }

  function RootEntries(d: Data): seq<Entry> {
    [Entry("Label", Str(Label(d.id))), Entry("ProgramArguments", Elem("array", StrArray(Arguments(d))))]
    + OtherEntries(d)
  }

  const PROLOGUE := [Misc, Text("\n"), Misc, Text("\n"), Start("plist"), Text("\n")]
  const EPILOGUE := [Text("\n"), End("plist"), Text("\n")]

  /** The tokens of the document that Render writes. */
  function Render(d: Data): seq<Token> {
    PROLOGUE + Tokens(Elem("dict", Layout(RootEntries(d)))) + EPILOGUE
  }

  // ---------- Reading back ----------

  /** No value sits where a key belongs. */
  predicate Values(entries: seq<Entry>) {
    forall i :: 0 <= i < |entries| ==> entries[i].value.Elem? && entries[i].value.name != "key"
  }

  lemma TextOf(text: string)
    ensures DirectText([Chars(text)]) == text
  {
    assert DirectText([]) == "";
    assert text + "" == text;
  }

  /** A laid-out dict has exactly the entries it was laid out from. */
  lemma {:induction false} LayoutReadsBack(entries: seq<Entry>)
    requires Values(entries)
    ensures Entries(Layout(entries), None) == Some(entries)
    decreases |entries|
  {
    var kids := Layout(entries);
    if entries == [] {
      assert kids[1..] == [] && Entries([], None) == Some([]);
      assert Entries(kids, None) == Entries(kids[1..], None);
    } else {
      var e, rest := entries[0], Layout(entries[1..]);
      TextOf(e.key);
      LayoutReadsBack(entries[1..]);
      var four := [e.value] + rest;
      assert four[1..] == rest;
      assert Entries(four, Some(e.key)) == Some([e] + entries[1..]);
      var three := [Chars("\n  ")] + four;
      assert three[1..] == four;
      var two := [Elem("key", [Chars(e.key)])] + three;
      assert two[1..] == three;
      assert Entries(three, Some(e.key)) == Entries(four, Some(e.key));
      assert Entries(two, None) == Entries(three, Some(e.key));
      assert kids[0] == Chars("\n  ") && kids[1..] == two;
      assert Entries(kids, None) == Entries(two, None);
      assert [e] + entries[1..] == entries;
    }
  }

  /** The template's strings come back from their array. */
  lemma {:induction false} StringsReadBack(texts: seq<string>)
    ensures ScannedStrings(StrArray(texts)) == CarriedAll(texts)
    decreases |texts|
  {
    if texts != [] {
      var kids := StrArray(texts);
      StringsReadBack(texts[1..]);
      TextOf(Carried(texts[0]));
      assert !HasArray(kids[0]);
      assert kids[1..] == [Str(texts[0])] + StrArray(texts[1..]);
      assert kids[1..][1..] == StrArray(texts[1..]);
    }
  }

  /** A text comes back as it went in exactly when XML can contain all its characters. */
  lemma ArgumentsCarried(d: Data)
    ensures CarriedAll(Arguments(d)) == Arguments(d) <==> XmlText(d.executable) && XmlText(d.name)
  {
    var args := Arguments(d);
    var carried := CarriedAll(args);
    assert XmlText(args[1]) && XmlText(args[3]);
    if XmlText(args[0]) && XmlText(args[2]) {
      assert carried[0] == args[0] && carried[1] == args[1] && carried[2] == args[2] && carried[3] == args[3];
    }
  }

  lemma {:induction false} LookupNothing(entries: seq<Entry>, key: string)
    requires forall i :: 0 <= i < |entries| ==> entries[i].key != key
    ensures Lookup(entries, key) == []
    decreases |entries|
  {
    if entries != [] { LookupNothing(entries[1..], key); }
  }

  /** Neither key of interest occurs again, whichever optional entries are there. */
  lemma OtherKeys(d: Data)
    ensures Values(OtherEntries(d))
    ensures forall i :: 0 <= i < |OtherEntries(d)| ==> OtherEntries(d)[i].key !in ["Label", "ProgramArguments"]
  {
  }

  lemma LookupBehind(e: Entry, rest: seq<Entry>, key: string)
    ensures Lookup([e] + rest, key) == (if e.key == key then [e.value] else []) + Lookup(rest, key)
  {
    assert ([e] + rest)[1..] == rest;
  }

  lemma RootLookups(d: Data)
    ensures Values(RootEntries(d))
    ensures Lookup(RootEntries(d), "Label") == [Str(Label(d.id))]
    ensures Lookup(RootEntries(d), "ProgramArguments") == [Elem("array", StrArray(Arguments(d)))]
  {
    OtherKeys(d);
    var others := OtherEntries(d);
    var name := Entry("Label", Str(Label(d.id)));
    var args := Entry("ProgramArguments", Elem("array", StrArray(Arguments(d))));
    assert RootEntries(d) == [name] + ([args] + others);
    LookupNothing(others, "Label");
    LookupNothing(others, "ProgramArguments");
    LookupBehind(args, others, "Label");
    LookupBehind(args, others, "ProgramArguments");
    LookupBehind(name, [args] + others, "Label");
    LookupBehind(name, [args] + others, "ProgramArguments");
  }

  /** What the scans read from the rendered document is what escaping carried into it. */
  lemma ScansReadCarried(d: Data)
    ensures LabelFrom(Render(d), true, LABEL_START) == Ok(Carried(Label(d.id)))
    ensures ArgsFrom(Render(d), true, ARGS_START) == Ok(CarriedAll(Arguments(d)))
  {
    var kids := Layout(RootEntries(d));
    RootLookups(d);
    LayoutReadsBack(RootEntries(d));
    TextOf(Carried(Label(d.id)));
    LabelIsLookup(PROLOGUE, kids, EPILOGUE, Carried(Label(d.id)));
    ArgumentsAreLookup(PROLOGUE, kids, EPILOGUE);
    StringsReadBack(Arguments(d));
    var arrays := [Elem("array", StrArray(Arguments(d)))];
    assert ScannedArrays(arrays) == CarriedAll(Arguments(d)) + ScannedArrays(arrays[1..]) == CarriedAll(Arguments(d));
  }

  /**
    For every VM and every value of the template's parameters, the label scan reads back the label
    exactly when XML can contain it, and the argument scan the command, program path first, exactly
    when XML can contain the path and the VM's name.
   */
  lemma ScansReadBackRender(d: Data)
    ensures LabelFrom(Render(d), true, LABEL_START) == Ok(Label(d.id)) <==> XmlText(Label(d.id))
    ensures ArgsFrom(Render(d), true, ARGS_START) == Ok([d.executable, "start", d.name, "--foreground"]) <==>
      XmlText(d.executable) && XmlText(d.name)
  {
    ScansReadCarried(d);
    ArgumentsCarried(d);
  }

  /** Two VMs share a label exactly when the first twelve characters of their IDs agree. */
  lemma LabelsAgreeExactly(a: string, b: string)
    requires |a| >= 12 && |b| >= 12
    ensures Label(a) == Label(b) <==> a[..12] == b[..12]
  {
    var prefix := "io.qemu-manage.vm.";
    assert (if |a| > 12 then a[..12] else a) == a[..12];
    assert (if |b| > 12 then b[..12] else b) == b[..12];
    assert Label(a)[|prefix|..] == a[..12] && Label(b)[|prefix|..] == b[..12];
  }
}
