/**
  Splitting a drive specification on commas (internal/cli/create.go), against the printer that
  doubles the commas of a value (internal/qemu/command.go).
 */
module DriveItems {
  import opened Wrappers

  datatype ItemError = EmptySpecification | EmptyItem

  /** `keyval`: every comma is doubled. */
  function Keyval(value: string): string {
    if value == "" then "" else (if value[0] == ',' then ",," else [value[0]]) + Keyval(value[1..])
  }

  /** The items in the printer's form, a single comma between them. */
  function Joined(items: seq<string>): string
    requires items != []
  {
    if |items| == 1 then Keyval(items[0]) else Keyval(items[0]) + "," + Joined(items[1..])
  }

  /** The scan of the text `s` when `current` has been read of the item at hand. */
  function SplitFrom(s: string, current: string): Result<seq<string>, ItemError>
    decreases |s|
  {
    if s == "" then (if current == "" then Err(EmptyItem) else Ok([current]))
    else if s[0] != ',' then SplitFrom(s[1..], current + [s[0]])
    else if |s| > 1 && s[1] == ',' then SplitFrom(s[2..], current + ",")
    else if current == "" then Err(EmptyItem)
    else
      var rest := SplitFrom(s[1..], "");
      if rest.Err? then rest else Ok([current] + rest.value)
  }

  /** What `splitDriveItems` makes of a specification. */
  function Split(raw: string): Result<seq<string>, ItemError> {
    if raw == "" then Err(EmptySpecification) else SplitFrom(raw, "")
  }

  /** Puts the items read before in front of a result. */
  function Prefixed(items: seq<string>, r: Result<seq<string>, ItemError>): Result<seq<string>, ItemError> {
    if r.Err? then r else Ok(items + r.value)
  }

  /** `splitDriveItems` */
  method SplitDriveItems(raw: string) returns (r: Result<seq<string>, ItemError>)
    ensures r == Split(raw)
  {
    if raw == "" {
      return Err(EmptySpecification);
    }
    var items: seq<string> := [];
    var current := "";
    var i := 0;
    assert forall t: Result<seq<string>, ItemError> :: t.Ok? ==> [] + t.value == t.value;
    while i < |raw|
      invariant 0 <= i <= |raw|
      invariant SplitFrom(raw, "") == Prefixed(items, SplitFrom(raw[i..], current))
    {
      ghost var s := raw[i..];
      assert s[1..] == raw[i + 1..];
      if raw[i] != ',' {
        current := current + [raw[i]];
        i := i + 1;
        continue;
      }
      if i + 1 < |raw| && raw[i + 1] == ',' {
        assert s[2..] == raw[i + 2..];
        current := current + ",";
        i := i + 2;
        continue;
      }
      if current == "" {
        return Err(EmptyItem);
      }
      ghost var rest := SplitFrom(raw[i + 1..], "");
      if rest.Ok? { assert items + ([current] + rest.value) == items + [current] + rest.value; }
      items := items + [current];
      current := "";
      i := i + 1;
    }
    if current == "" {
      return Err(EmptyItem);
    }
    r := Ok(items + [current]);
  }

  // ---------- Printing what was parsed ----------

  lemma {:induction false} KeyvalConcat(a: string, b: string)
    ensures Keyval(a + b) == Keyval(a) + Keyval(b)
    decreases |a|
  {
    if a == "" {
      assert a + b == b;
    } else {
      assert (a + b)[1..] == a[1..] + b;
      KeyvalConcat(a[1..], b);
    }
  }

  lemma KeyvalExtends(current: string, c: char)
    ensures Keyval(current + [c]) == Keyval(current) + if c == ',' then ",," else [c]
  {
    KeyvalConcat(current, [c]);
    assert [c][1..] == "";
  }

  lemma PrintShifts(current: string, c: char, text: string, s: string)
    requires text <= s && text == if c == ',' then ",," else [c]
    ensures Keyval(current + [c]) + s[|text|..] == Keyval(current) + s
  {
    KeyvalExtends(current, c);
    assert Keyval(current) + text + s[|text|..] == Keyval(current) + (text + s[|text|..]);
  }

  /** Every successful parse, printed again, is the text that was parsed. */
  lemma {:induction false} ParsePrintsBack(s: string, current: string)
    requires SplitFrom(s, current).Ok?
    ensures SplitFrom(s, current).value != [] && Joined(SplitFrom(s, current).value) == Keyval(current) + s
    ensures forall i :: 0 <= i < |SplitFrom(s, current).value| ==> SplitFrom(s, current).value[i] != ""
    decreases |s|
  {
    if s == "" {
      assert Keyval(current) + s == Keyval(current);
    } else if s[0] != ',' {
      ParsePrintsBack(s[1..], current + [s[0]]);
      PrintShifts(current, s[0], [s[0]], s);
    } else if |s| > 1 && s[1] == ',' {
      ParsePrintsBack(s[2..], current + ",");
      PrintShifts(current, ',', ",,", s);
    } else {
      var rest := SplitFrom(s[1..], "").value;
      ParsePrintsBack(s[1..], "");
      assert ([current] + rest)[1..] == rest;
      assert Keyval("") + s[1..] == s[1..];
      assert Keyval(current) + "," + s[1..] == Keyval(current) + s;
    }
  }

  /** Whatever text parses, its items printed and joined are that text. */
  lemma PrintAfterParse(raw: string)
    requires Split(raw).Ok?
    ensures Split(raw).value != [] && Joined(Split(raw).value) == raw
    ensures forall i :: 0 <= i < |Split(raw).value| ==> Split(raw).value[i] != ""
  {
    ParsePrintsBack(raw, "");
    assert Keyval("") + raw == raw;
  }

  // ---------- Parsing what was printed ----------

  /** A printed value is read back into the item at hand, whatever text follows it. */
  lemma {:induction false} KeyvalReadsBack(value: string, s: string, current: string)
    ensures SplitFrom(Keyval(value) + s, current) == SplitFrom(s, current + value)
    decreases |value|
  {
    var t := Keyval(value) + s;
    if value == "" {
      assert t == s && current + value == current;
    } else {
      var next := Keyval(value[1..]) + s;
      KeyvalReadsBack(value[1..], s, current + [value[0]]);
      assert current + [value[0]] + value[1..] == current + value;
      if value[0] == ',' {
        assert t[0] == ',' && t[1] == ',' && t[2..] == next;
      } else {
        assert t[0] == value[0] && t[1..] == next;
      }
    }
  }

  /** The items, other than the first, that the separator in front of them can be told from. */
  predicate Separable(items: seq<string>) {
    forall i :: 0 < i < |items| ==> items[i] == "" || items[i][0] != ','
  }

  /** The printed form starts with the first item's first character. */
  lemma JoinedStarts(items: seq<string>)
    requires items != [] && items[0] != ""
    ensures Joined(items) != "" && Joined(items)[0] == items[0][0]
    ensures items[0][0] == ',' ==> |Joined(items)| > 1 && Joined(items)[1] == ','
  {
  }

  lemma {:induction false} JoinedReadsBack(items: seq<string>)
    requires items != [] && (forall i :: 0 <= i < |items| ==> items[i] != "") && Separable(items)
    ensures SplitFrom(Joined(items), "") == Ok(items)
    decreases |items|
  {
    if |items| == 1 {
      KeyvalReadsBack(items[0], "", "");
      assert Keyval(items[0]) + "" == Keyval(items[0]) && "" + items[0] == items[0];
      assert items == [items[0]];
    } else {
      var rest := Joined(items[1..]);
      var s := "," + rest;
      assert Joined(items) == Keyval(items[0]) + s;
      KeyvalReadsBack(items[0], s, "");
      assert "" + items[0] == items[0];
      JoinedStarts(items[1..]);
      assert items[1..][0] == items[1] && items[1] != "" && items[1][0] != ',';
      assert s[0] == ',' && s[1] != ',' && s[1..] == rest;
      JoinedReadsBack(items[1..]);
      assert [items[0]] + items[1..] == items;
    }
  }

  /** An item begun with `current` keeps its first character. */
  lemma {:induction false} FirstCharacterStays(s: string, current: string)
    requires SplitFrom(s, current).Ok? && current != ""
    ensures SplitFrom(s, current).value != []
    ensures SplitFrom(s, current).value[0] != "" && SplitFrom(s, current).value[0][0] == current[0]
    decreases |s|
  {
    if s != "" && s[0] != ',' {
      FirstCharacterStays(s[1..], current + [s[0]]);
    } else if |s| > 1 && s[1] == ',' {
      FirstCharacterStays(s[2..], current + ",");
    }
  }

  /** A parse never produces an item, other than the first, that starts with a comma. */
  lemma {:induction false} ParseIsSeparable(s: string, current: string)
    requires SplitFrom(s, current).Ok?
    ensures Separable(SplitFrom(s, current).value)
    decreases |s|
  {
    if s == "" {
    } else if s[0] != ',' {
      ParseIsSeparable(s[1..], current + [s[0]]);
    } else if |s| > 1 && s[1] == ',' {
      ParseIsSeparable(s[2..], current + ",");
    } else {
      var t := s[1..];
      var rest := SplitFrom(t, "").value;
      ParseIsSeparable(t, "");
      assert t != "" && t[0] != ',';
      FirstCharacterStays(t[1..], "" + [t[0]]);
      var items := SplitFrom(s, current).value;
      assert items == [current] + rest;
      forall i | 0 < i < |items| ensures items[i] == "" || items[i][0] != ',' {
        assert items[i] == rest[i - 1];
      }
    }
  }

  /**
    Nonempty items, printed and joined, are read back exactly when no item after the first starts with
    a comma.
   */
  lemma RoundTripExactly(items: seq<string>)
    requires items != [] && forall i :: 0 <= i < |items| ==> items[i] != ""
    ensures Split(Joined(items)) == Ok(items) <==> Separable(items)
  {
    JoinedStarts(items);
    if Separable(items) {
      JoinedReadsBack(items);
    } else if Split(Joined(items)) == Ok(items) {
      ParseIsSeparable(Joined(items), "");
    }
  }

  /** The ambiguity at work: "a,,,b" is printed for two lists of items, and read as the other one. */
  lemma LeadingCommaIsAmbiguous()
    ensures Joined(["a", ",b"]) == "a,,,b" && Split("a,,,b") == Ok(["a,", "b"])
  {
    assert Keyval("a") == "a" && "a"[1..] == "";
    assert ",b"[1..] == "b" && "b"[1..] == "";
    assert Keyval(",b") == ",,b" by { assert Keyval("b") == "b"; }
    assert ["a", ",b"][1..] == [",b"];
    assert Joined([",b"]) == ",,b";
    var s := "a,,,b";
    assert s[1..] == ",,,b" && s[1..][2..] == ",b" && ",b"[1..] == "b";
    assert SplitFrom("", "b") == Ok(["b"]);
    assert SplitFrom("b", "") == Ok(["b"]) by { assert "" + ['b'] == "b"; }
    assert SplitFrom(",b", "a,") == Ok(["a,"] + ["b"]);
    assert SplitFrom(",,,b", "a") == SplitFrom(",b", "a" + ",");
    assert SplitFrom(s, "") == SplitFrom(s[1..], "" + ['a']);
    assert "" + ['a'] == "a" && "a" + "," == "a," && ["a,"] + ["b"] == ["a,", "b"];
  }
}
