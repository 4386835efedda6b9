/** The text of an alert, and the parser the status page reads it back with. */
module AlertMessages {
  import opened Text

  datatype Fields = Fields(
    rule: string,
    check: string,
    status: string,
    details: string,
    durationMs: int,
    description: string)

  function Digit(n: nat): char
    requires n < 10
  {
    ('0' as int + n) as char
  }

  /** `%d` */
  function Decimal(n: nat): (s: string)
    ensures |s| > 0 && forall c :: c in s ==> '0' <= c <= '9'
  {
    if n < 10 then [Digit(n)] else Decimal(n / 10) + [Digit(n % 10)]
  }

  /** The number that a string of digits stands for. */
  function Numeral(s: string): int {
    if s == [] then 0 else 10 * Numeral(s[..|s| - 1]) + (s[|s| - 1] as int - '0' as int)
  }

  lemma {:induction false} DecimalIsNumeral(n: nat)
    ensures Numeral(Decimal(n)) == n
    ensures n > 0 ==> Decimal(n)[0] != '0'
  {
    if n >= 10 {
      DecimalIsNumeral(n / 10);
    }
  }

  function Labelled(key: string, value: string): string {
    key + ": " + value
  }

  /** The labelled parts that are printed, in order. */
  function Parts(f: Fields): seq<string> {
    var p := [Labelled("Rule", f.rule), Labelled("Check", f.check), Labelled("Status", f.status)];
    var p := if f.details != "" then p + [Labelled("Details", f.details)] else p;
    var p := if f.durationMs > 0 then p + [Labelled("Duration", Decimal(f.durationMs) + "ms")] else p;
    if f.description != "" then p + [Labelled("Description", f.description)] else p
  }

  function BuildAlertMessage(f: Fields): string {
    Join(Parts(f), " | ")
  }

  function ParsePart(parts: map<string, string>, part: string): map<string, string> {
    var (key, value, ok) := Cut(TrimSpace(part), ':');
    if ok then parts[ToLower(TrimSpace(key)) := TrimSpace(value)] else parts
  }

  function ParseAll(parts: seq<string>): map<string, string> {
    if parts == [] then map[] else ParsePart(ParseAll(parts[..|parts| - 1]), parts[|parts| - 1])
  }

  method ParseAlertMessageParts(message: string) returns (parts: map<string, string>)
    ensures parts == ParseAll(Split(message, '|'))
  {
    parts := map[];
    var pieces := Split(message, '|');
    for i := 0 to |pieces|
      invariant parts == ParseAll(pieces[..i])
    {
      assert pieces[..i + 1][..i] == pieces[..i];
      var (key, value, ok) := Cut(TrimSpace(pieces[i]), ':');
      if !ok { continue; }
      parts := parts[ToLower(TrimSpace(key)) := TrimSpace(value)];
    }
    assert pieces[..|pieces|] == pieces;
  }

  // ----- Round trip

  /** What the parser should give back: every printed field, trimmed, under its key. */
  function Expected(f: Fields): map<string, string> {
    var m := map["rule" := TrimSpace(f.rule), "check" := TrimSpace(f.check), "status" := TrimSpace(f.status)];
    var m := if f.details != "" then m["details" := TrimSpace(f.details)] else m;
    var m := if f.durationMs > 0 then m["duration" := Decimal(f.durationMs) + "ms"] else m;
    if f.description != "" then m["description" := TrimSpace(f.description)] else m
  }

  predicate PipeFree(f: Fields) {
    '|' !in f.rule && '|' !in f.check && '|' !in f.status && '|' !in f.details && '|' !in f.description
  }

  lemma SeparatorSplits(s: string, part: string)
    ensures s + " | " + part == (s + " ") + ['|'] + (" " + part)
  {
    assert " | " == " " + ['|'] + " ";
  }

  /** Adding a part adds a piece, and a blank to the piece before. */
  lemma JoinSnoc(s: string, part: string)
    requires '|' !in part
    ensures var ps := Split(s, '|');
      Split(s + " | " + part, '|') == ps[..|ps| - 1] + [ps[|ps| - 1] + " ", " " + part]
  {
    hide Split;
    SeparatorSplits(s, part);
    SplitExtendsLast(s, '|', " ");
    SplitSnoc(s + " ", '|', " " + part);
  }

  lemma BlankEnds(s: string)
    ensures TrimSpace(s + " ") == TrimSpace(s) && TrimSpace(" " + s) == TrimSpace(s)
  {
    TrimSpaceIgnoresBlanks("", s, " ");
    assert "" + s + " " == s + " ";
    TrimSpaceIgnoresBlanks(" ", s, "");
    assert " " + s + "" == " " + s;
  }

  /** The pieces between pipes are the parts, up to blanks. */
  lemma {:induction false} PiecesAreParts(parts: seq<string>)
    requires parts != [] && forall i :: 0 <= i < |parts| ==> '|' !in parts[i]
    ensures var pieces := Split(Join(parts, " | "), '|');
      && |pieces| == |parts|
      && forall i :: 0 <= i < |parts| ==> TrimSpace(pieces[i]) == TrimSpace(parts[i])
  {
    hide TrimSpace, Split;
    var n := |parts| - 1;
    if n > 0 {
      var front := parts[..n];
      PiecesAreParts(front);
      var s := Join(front, " | ");
      JoinSnoc(s, parts[n]);
      BlankEnds(Split(s, '|')[n - 1]);
      BlankEnds(parts[n]);
      assert TrimSpace(Split(s, '|')[n - 1]) == TrimSpace(front[n - 1]);
    } else {
      NoPipeNoSplit(parts[0]);
    }
  }

  lemma NoPipeNoSplit(s: string)
    requires '|' !in s
    ensures Split(s, '|') == [s]
  {
  }

  lemma {:induction false} ParsingIgnoresBlanks(ps: seq<string>, qs: seq<string>)
    requires |ps| == |qs| && forall i :: 0 <= i < |ps| ==> TrimSpace(ps[i]) == TrimSpace(qs[i])
    ensures ParseAll(ps) == ParseAll(qs)
  {
    if ps != [] {
      ParsingIgnoresBlanks(ps[..|ps| - 1], qs[..|qs| - 1]);
    }
  }

  /** A printed part, trimmed, is its label, the colon and a rest that trims like the value. */
  lemma PartTrims(key: string, value: string) returns (rest: string)
    requires key != [] && Trimmed(key)
    ensures TrimSpace(Labelled(key, value)) == key + [':'] + rest
    ensures TrimSpace(rest) == TrimSpace(value)
  {
    hide IsSpace, TrimSpace;
    var l, r := TrimSpaceSplits(value);
    var v := TrimSpace(value);
    TrimSpaceOfTrimmed("");
    if v == [] {
      rest := "";
      assert Labelled(key, value) == "" + (key + [':']) + (" " + value);
      assert Blank(" " + value) by { SpaceIsBlank(); }
      ColonEnds(key, "");
      TrimSpaceFinds("", key + [':'], " " + value);
      assert key + [':'] + "" == key + [':'];
    } else {
      rest := " " + l + v;
      assert Labelled(key, value) == "" + (key + [':'] + rest) + r;
      ColonEnds(key, rest);
      TrimSpaceFinds("", key + [':'] + rest, r);
      SpaceIsBlank();
      TrimSpaceOfTrimmed(v);
      TrimSpaceIgnoresBlanks(" " + l, v, "");
      assert " " + l + v + "" == rest;
    }
  }

  lemma SpaceIsBlank()
    ensures Blank(" ")
  {
  }

  lemma ColonEnds(key: string, rest: string)
    requires key != [] && Trimmed(key)
    requires rest == [] || !IsSpace(rest[|rest| - 1])
    ensures Trimmed(key + [':'] + rest) && (rest == [] ==> Trimmed(key + [':']))
  {
  }

  /** A printed part parses to its label and its trimmed value; colons in the value stay. */
  lemma PartParses(parts: map<string, string>, key: string, value: string)
    requires key != [] && Trimmed(key) && ':' !in key
    ensures ParsePart(parts, Labelled(key, value)) == parts[ToLower(key) := TrimSpace(value)]
  {
    hide TrimSpace, ToLower, Labelled, Cut;
    var rest := PartTrims(key, value);
    CutFinds(key, ':', rest);
    TrimSpaceOfTrimmed(key);
  }

  lemma ParseSnoc(parts: seq<string>, key: string, value: string)
    requires key != [] && Trimmed(key) && ':' !in key
    ensures ParseAll(parts + [Labelled(key, value)]) == ParseAll(parts)[ToLower(key) := TrimSpace(value)]
  {
    var part := Labelled(key, value);
    assert (parts + [part])[..|parts|] == parts;
    PartParses(ParseAll(parts), key, value);
  }

  lemma DurationIsTrimmed(n: nat)
    ensures TrimSpace(Decimal(n) + "ms") == Decimal(n) + "ms" && '|' !in Decimal(n) + "ms"
  {
    var s := Decimal(n) + "ms";
    assert s[0] in Decimal(n);
    TrimSpaceOfTrimmed(s);
  }

  lemma LabelsLower()
    ensures ToLower("Rule") == "rule" && ToLower("Check") == "check" && ToLower("Status") == "status"
    ensures ToLower("Details") == "details" && ToLower("Duration") == "duration"
    ensures ToLower("Description") == "description"
  {
  }

  lemma PartsParse(f: Fields)
    ensures ParseAll(Parts(f)) == Expected(f)
  {
    LabelsLower();
    hide ToLower, TrimSpace, ParsePart, Labelled, ParseAll;
    var r, c, t := Labelled("Rule", f.rule), Labelled("Check", f.check), Labelled("Status", f.status);
    NothingParsed();
    ParseSnoc([], "Rule", f.rule);
    assert [] + [r] == [r];
    ParseSnoc([r], "Check", f.check);
    assert [r] + [c] == [r, c];
    ParseSnoc([r, c], "Status", f.status);
    assert [r, c] + [t] == [r, c, t];
    var p4 := if f.details != "" then [r, c, t] + [Labelled("Details", f.details)] else [r, c, t];
    ParseSnoc([r, c, t], "Details", f.details);
    if f.durationMs > 0 {
      DurationIsTrimmed(f.durationMs);
      ParseSnoc(p4, "Duration", Decimal(f.durationMs) + "ms");
      ParseSnoc(p4 + [Labelled("Duration", Decimal(f.durationMs) + "ms")], "Description", f.description);
    }
    ParseSnoc(p4, "Description", f.description);
  }

  lemma NothingParsed()
    ensures ParseAll([]) == map[]
  {
  }

  lemma PartsPipeFree(f: Fields)
    requires PipeFree(f)
    ensures forall i :: 0 <= i < |Parts(f)| ==> '|' !in Parts(f)[i]
  {
    if f.durationMs > 0 {
      DurationIsTrimmed(f.durationMs);
    }
  }

  lemma {:induction false} ParsedValuesPipeFree(parts: seq<string>, key: string)
    requires forall i :: 0 <= i < |parts| ==> '|' !in parts[i]
    ensures var m := ParseAll(parts); key in m ==> '|' !in m[key]
  {
    if parts != [] {
      ParsedValuesPipeFree(parts[..|parts| - 1], key);
      var part := parts[|parts| - 1];
      TrimSpaceKeepsChar(part, '|');
      var (k, v, ok) := Cut(TrimSpace(part), ':');
      TrimSpaceKeepsChar(v, '|');
    }
  }

  /** The parser gives back exactly the printed fields, trimmed, when and only when no field
      contains the separator. */
  lemma RoundTripIffPipeFree(f: Fields)
    ensures ParseAll(Split(BuildAlertMessage(f), '|')) == Expected(f) <==> PipeFree(f)
  {
    hide TrimSpace, Split, Join, ParseAll;
    var pieces := Split(BuildAlertMessage(f), '|');
    if PipeFree(f) {
      PartsPipeFree(f);
      PiecesAreParts(Parts(f));
      ParsingIgnoresBlanks(pieces, Parts(f));
      PartsParse(f);
    } else {
      TrimSpaceKeepsChar(f.rule, '|');
      TrimSpaceKeepsChar(f.check, '|');
      TrimSpaceKeepsChar(f.status, '|');
      TrimSpaceKeepsChar(f.details, '|');
      TrimSpaceKeepsChar(f.description, '|');
      ParsedValuesPipeFree(pieces, "rule");
      ParsedValuesPipeFree(pieces, "check");
      ParsedValuesPipeFree(pieces, "status");
      ParsedValuesPipeFree(pieces, "details");
      ParsedValuesPipeFree(pieces, "description");
    }
  }

  /** On trimmed fields the values come back unchanged. */
  lemma RoundTripExact(f: Fields)
    requires PipeFree(f) && Trimmed(f.rule) && Trimmed(f.check) && Trimmed(f.status)
    requires Trimmed(f.details) && Trimmed(f.description)
    ensures var m := ParseAll(Split(BuildAlertMessage(f), '|'));
      && m.Keys == {"rule", "check", "status"}
                   + (if f.details != "" then {"details"} else {})
                   + (if f.durationMs > 0 then {"duration"} else {})
                   + (if f.description != "" then {"description"} else {})
      && m["rule"] == f.rule && m["check"] == f.check && m["status"] == f.status
      && (f.details != "" ==> m["details"] == f.details)
      && (f.durationMs > 0 ==> m["duration"] == Decimal(f.durationMs) + "ms")
      && (f.description != "" ==> m["description"] == f.description)
  {
    hide TrimSpace, Split, Join, ParseAll;
    RoundTripIffPipeFree(f);
    TrimSpaceOfTrimmed(f.rule);
    TrimSpaceOfTrimmed(f.check);
    TrimSpaceOfTrimmed(f.status);
    TrimSpaceOfTrimmed(f.details);
    TrimSpaceOfTrimmed(f.description);
  }
}
