/**
 * The profile editor: the edit buffer seeded from the user record, the
 * comma-separated skills text, and the record a save computes.
 */
module Profile {
  import opened Wrappers
  import opened Text
  import opened Http

  /** A user record as the page receives it; `others` holds every field the page does not touch. */
  datatype User = User(firstName: string, email: string, skills: seq<string>, others: map<string, Json>)

  /** The edit buffer; skills are edited as one comma-separated text. */
  datatype Buffer = Buffer(firstName: string, email: string, skills: string)

  datatype Editor = Editor(editing: bool, buffer: Buffer)

  const SkillSeparator := ", "

  /** The buffer starts from the record, skills joined with a comma and a space. */
  function InitialBuffer(u: User): (b: Buffer)
    ensures b.firstName == u.firstName && b.email == u.email
    ensures u.skills == [] ==> b.skills == ""
    ensures |u.skills| == 1 ==> b.skills == u.skills[0]
  {
    Buffer(u.firstName, u.email, Join(u.skills, SkillSeparator))
  }

  function InitialEditor(u: User): Editor {
    Editor(false, InitialBuffer(u))
  }

  /** Each piece trimmed, in order, with the pieces that trim to nothing dropped. */
  function Clean(pieces: seq<string>): (r: seq<string>)
    ensures |r| <= |pieces|
    ensures forall i :: 0 <= i < |r| ==> r[i] != "" && IsTrimmed(r[i])
    ensures (forall i :: 0 <= i < |pieces| ==> ',' !in pieces[i]) ==> forall i :: 0 <= i < |r| ==> ',' !in r[i]
  {
    if |pieces| == 0 then []
    else
      var t := Trim(pieces[0]);
      var rest := Clean(pieces[1..]);
      TrimIdempotent(pieces[0]);
      assert forall i :: 1 <= i < |pieces| ==> pieces[i] == pieces[1..][i - 1];
      assert ',' !in pieces[0] ==> ',' !in t by {
        if ',' in t {
          var k :| 0 <= k < |t| && t[k] == ',';
          assert pieces[0][LeadingSpace(pieces[0]) + k] == ',';
        }
      }
      if t == "" then rest else [t] + rest
  }

  /** What survives cleaning: every piece that is not blank, trimmed, and nothing else. */
  lemma {:induction false} CleanKeepsNonBlank(pieces: seq<string>)
    ensures forall i :: 0 <= i < |pieces| && Trim(pieces[i]) != "" ==> Trim(pieces[i]) in Clean(pieces)
    ensures forall x :: x in Clean(pieces) ==> exists i :: 0 <= i < |pieces| && x == Trim(pieces[i])
    decreases |pieces|
  {
    if |pieces| > 0 {
      var tail := pieces[1..];
      CleanKeepsNonBlank(tail);
      assert forall i :: 1 <= i < |pieces| ==> pieces[i] == tail[i - 1];
      forall x | x in Clean(pieces) ensures exists i :: 0 <= i < |pieces| && x == Trim(pieces[i]) {
        if x != Trim(pieces[0]) {
          assert x in Clean(tail);
          var j :| 0 <= j < |tail| && x == Trim(tail[j]);
          assert x == Trim(pieces[j + 1]);
        }
      }
    }
  }

  /** Cleaning works piece by piece: the pieces of a concatenation clean to the concatenation of their cleanings. */
  lemma {:induction false} CleanConcat(a: seq<string>, b: seq<string>)
    ensures Clean(a + b) == Clean(a) + Clean(b)
    decreases |a|
  {
    if |a| > 0 {
      assert (a + b)[1..] == a[1..] + b;
      assert (a + b)[0] == a[0];
      CleanConcat(a[1..], b);
      if Trim(a[0]) != "" {
        assert [Trim(a[0])] + Clean(a[1..]) + Clean(b) == [Trim(a[0])] + (Clean(a[1..]) + Clean(b));
      }
    } else {
      assert a + b == b;
    }
  }

  /** One piece cleans to its trim, or to nothing when it is blank. */
  lemma CleanSingle(p: string)
    ensures Clean([p]) == if Trim(p) == "" then [] else [Trim(p)]
  {
    assert [p][1..] == [];
  }

  /** The skills list a save computes from the text: split on commas, trimmed, empties dropped. */
  function ParseSkills(text: string): (r: seq<string>)
    ensures forall i :: 0 <= i < |r| ==> r[i] != "" && IsTrimmed(r[i]) && ',' !in r[i]
  {
    Clean(Split(text, ','))
  }

  /**
   * The skills a save keeps are exactly the comma-separated pieces of the
   * text that are not blank, each trimmed.
   */
  lemma ParseSkillsKeepsNonBlank(text: string)
    ensures var pieces := Split(text, ',');
      && (forall i :: 0 <= i < |pieces| && Trim(pieces[i]) != "" ==> Trim(pieces[i]) in ParseSkills(text))
      && (forall x :: x in ParseSkills(text) ==> exists i :: 0 <= i < |pieces| && x == Trim(pieces[i]))
  {
    var pieces := Split(text, ',');
    CleanKeepsNonBlank(pieces);
    assert ParseSkills(text) == Clean(pieces);
  }

  /** Blank pieces between commas are dropped and the others trimmed. */
  lemma BlankPiecesDropped()
    ensures ParseSkills(" a ,, b") == ["a", "b"]
  {
    ExampleSplit();
    ExampleClean();
  }

  lemma ExampleSplit()
    ensures Split(" a ,, b", ',') == [" a ", "", " b"]
  {
    SplitWithoutSeparator(" b", ',');
    assert ", b" == "" + [','] + " b";
    SplitAtSeparator("", ',', " b");
    assert " a ,, b" == " a " + [','] + ", b";
    SplitAtSeparator(" a ", ',', ", b");
  }

  lemma ExampleClean()
    ensures Clean([" a ", "", " b"]) == ["a", "b"]
  {
    assert Trim(" a ") == "a" by { TrimSpec(" a "); }
    TrimLeadingSpace("b");
    var last := Clean([" b"]);
    assert last == ["b"] by { CleanSingle(" b"); }
    var middle := Clean(["", " b"]);
    assert middle == ["b"] by { assert ["", " b"][1..] == [" b"]; }
    assert [" a ", "", " b"][1..] == ["", " b"];
  }

  /** Each entry with one space in front. */
  function Spaced(xs: seq<string>): (r: seq<string>)
    ensures |r| == |xs|
    ensures forall i :: 0 <= i < |xs| ==> r[i] == " " + xs[i]
  {
    if |xs| == 0 then [] else [" " + xs[0]] + Spaced(xs[1..])
  }

  /** Joining with ", " is joining, with ",", the entries after the first prefixed by a space. */
  lemma {:induction false} JoinWithSpace(xs: seq<string>)
    requires |xs| >= 2
    ensures Join(xs, SkillSeparator) == Join([xs[0]] + Spaced(xs[1..]), ",")
    decreases |xs|
  {
    var ys := [xs[0]] + Spaced(xs[1..]);
    assert ys[1..] == Spaced(xs[1..]);
    JoinSpaced(xs[1..]);
  }

  lemma {:induction false} JoinSpaced(ys: seq<string>)
    requires |ys| >= 1
    ensures Join(Spaced(ys), ",") == " " + Join(ys, SkillSeparator)
    decreases |ys|
  {
    if |ys| >= 2 {
      var zs := Spaced(ys);
      assert zs[1..] == Spaced(ys[1..]);
      JoinSpaced(ys[1..]);
      assert Join(zs, ",") == " " + ys[0] + "," + " " + Join(ys[1..], SkillSeparator);
    }
  }

  /** Cleaning space-prefixed, trimmed, non-empty entries gives the entries back. */
  lemma {:induction false} CleanSpaced(xs: seq<string>)
    requires forall i :: 0 <= i < |xs| ==> xs[i] != "" && IsTrimmed(xs[i])
    ensures Clean(Spaced(xs)) == xs
    decreases |xs|
  {
    if |xs| > 0 {
      var zs := Spaced(xs);
      var tail := xs[1..];
      assert zs[1..] == Spaced(tail);
      assert forall i :: 0 <= i < |tail| ==> tail[i] == xs[i + 1];
      TrimLeadingSpace(xs[0]);
      CleanSpaced(tail);
    }
  }

  /** The pieces the joined text splits into: the first entry, then the others each behind a space. */
  lemma {:induction false} SplitJoined(xs: seq<string>)
    requires |xs| >= 2
    requires forall i :: 0 <= i < |xs| ==> ',' !in xs[i]
    ensures Split(Join(xs, SkillSeparator), ',') == [xs[0]] + Spaced(xs[1..])
  {
    var ys := [xs[0]] + Spaced(xs[1..]);
    JoinWithSpace(xs);
    forall i | 0 <= i < |ys| ensures ',' !in ys[i] {
      if i > 0 {
        assert ys[i] == " " + xs[i];
      }
    }
    SplitJoin(ys, ',');
    assert [','] == ",";
  }

  /**
   * The skills text round-trips: for entries that are non-empty, already
   * trimmed and free of commas, parsing the joined text gives the list back.
   */
  lemma SkillsRoundTrip(xs: seq<string>)
    requires forall i :: 0 <= i < |xs| ==> xs[i] != "" && IsTrimmed(xs[i]) && ',' !in xs[i]
    ensures ParseSkills(Join(xs, SkillSeparator)) == xs
  {
    if |xs| == 0 {
      RoundTripEmpty(xs);
    } else if |xs| == 1 {
      RoundTripSingle(xs);
    } else {
      RoundTripMany(xs);
    }
  }

  /** The empty text parses to no skills. */
  lemma ParseEmpty()
    ensures ParseSkills("") == []
  {
    assert Split("", ',') == [""];
    assert Trim("") == "";
    assert Clean([""]) == [];
  }

  lemma RoundTripEmpty(xs: seq<string>)
    requires |xs| == 0
    ensures ParseSkills(Join(xs, SkillSeparator)) == xs
  {
    assert xs == [];
    ParseEmpty();
  }

  /** A single clean entry parses to itself. */
  lemma ParseSingle(x: string)
    requires x != "" && IsTrimmed(x) && ',' !in x
    ensures ParseSkills(x) == [x]
  {
    SplitWithoutSeparator(x, ',');
    TrimOfTrimmed(x);
    assert Clean([x]) == [Trim(x)] + Clean([]);
  }

  lemma RoundTripSingle(xs: seq<string>)
    requires |xs| == 1
    requires forall i :: 0 <= i < |xs| ==> xs[i] != "" && IsTrimmed(xs[i]) && ',' !in xs[i]
    ensures ParseSkills(Join(xs, SkillSeparator)) == xs
  {
    assert xs == [xs[0]];
    ParseSingle(xs[0]);
  }

  lemma RoundTripMany(xs: seq<string>)
    requires |xs| >= 2
    requires forall i :: 0 <= i < |xs| ==> xs[i] != "" && IsTrimmed(xs[i]) && ',' !in xs[i]
    ensures ParseSkills(Join(xs, SkillSeparator)) == xs
  {
    SplitJoined(xs);
    CleanPieces(xs);
  }

  /** Cleaning the pieces of the joined text gives the entries back. */
  lemma CleanPieces(xs: seq<string>)
    requires |xs| >= 2
    requires forall i :: 0 <= i < |xs| ==> xs[i] != "" && IsTrimmed(xs[i])
    ensures Clean([xs[0]] + Spaced(xs[1..])) == xs
  {
    var tail := xs[1..];
    assert forall i :: 0 <= i < |tail| ==> tail[i] == xs[i + 1];
    CleanSpaced(tail);
    CleanCons(xs[0], Spaced(tail));
    assert [xs[0]] + tail == xs;
  }

  /** A clean first piece is kept as it is. */
  lemma CleanCons(x: string, rest: seq<string>)
    requires x != "" && IsTrimmed(x)
    ensures Clean([x] + rest) == [x] + Clean(rest)
  {
    TrimOfTrimmed(x);
    assert ([x] + rest)[1..] == rest;
  }

  /** Parsing is stable: re-joining and re-parsing a parsed list changes nothing. */
  lemma ParseStable(text: string)
    ensures ParseSkills(Join(ParseSkills(text), SkillSeparator)) == ParseSkills(text)
  {
    SkillsRoundTrip(ParseSkills(text));
  }

  /** A whole skill list survives the editor untouched: the initial buffer parses back to the record's list. */
  lemma UnchangedBufferSavesSameSkills(u: User)
    requires forall i :: 0 <= i < |u.skills| ==> u.skills[i] != "" && IsTrimmed(u.skills[i]) && ',' !in u.skills[i]
    ensures ParseSkills(InitialBuffer(u).skills) == u.skills
  {
    SkillsRoundTrip(u.skills);
  }

  /** The record a save computes: the new first name and the parsed skills, everything else copied. */
  function SavedRecord(u: User, b: Buffer): (r: User)
    ensures r.email == u.email && r.others == u.others
    ensures r.firstName == b.firstName
    ensures forall i :: 0 <= i < |r.skills| ==> r.skills[i] != "" && IsTrimmed(r.skills[i]) && ',' !in r.skills[i]
  {
    u.(firstName := b.firstName, skills := ParseSkills(b.skills))
  }

  /** Typing in the first-name input. */
  function EditFirstName(e: Editor, v: string): (r: Editor)
    ensures r.buffer.firstName == v && r.buffer.email == e.buffer.email && r.buffer.skills == e.buffer.skills
    ensures r.editing == e.editing
  {
    e.(buffer := e.buffer.(firstName := v))
  }

  /** Typing in the skills text area. */
  function EditSkills(e: Editor, v: string): (r: Editor)
    ensures r.buffer.skills == v && r.buffer.email == e.buffer.email && r.buffer.firstName == e.buffer.firstName
    ensures r.editing == e.editing
  {
    e.(buffer := e.buffer.(skills := v))
  }

  /** "Edit Profile": the buffer is kept as it was, so edits abandoned by a cancel reappear. */
  function StartEditing(e: Editor): (r: Editor)
    ensures r.editing && r.buffer == e.buffer
  {
    e.(editing := true)
  }

  /** "Cancel": editing ends and no update is applied. */
  function Cancel(e: Editor): (r: (Editor, Option<User>))
    ensures !r.0.editing && r.0.buffer == e.buffer && r.1.None?
  {
    (e.(editing := false), None)
  }

  /**
   * "Save Changes" as written: the handler first calls a `setUser` that is
   * not defined in the component, so it throws before the record is built
   * or editing is ended.
   */
  function SaveAsWritten(e: Editor, u: User): (r: (Editor, Option<User>))
    ensures r.0 == e && r.1.None?
  {
    (e, None)
  }

  /** Saving as written never leaves the editor and never delivers an update. */
  lemma SaveAsWrittenStaysEditing(e: Editor, u: User)
    requires e.editing
    ensures SaveAsWritten(e, u).0.editing
    ensures SaveAsWritten(e, u).1 == None
    ensures SaveAsWritten(e, u) != Save(e, u)
  {
  }

  /**
   * "Save Changes" as intended: the computed record is handed to the
   * parent's update callback and editing ends.
   */
  function Save(e: Editor, u: User): (r: (Editor, Option<User>))
    ensures !r.0.editing && r.0.buffer == e.buffer
    ensures r.1.Some?
  {
    (e.(editing := false), Some(SavedRecord(u, e.buffer)))
  }

  /**
   * A save changes only the first name and the skills; the email field is
   * never edited, so saving straight after opening the editor on a record
   * with clean skills gives the record back.
   */
  lemma SaveChangesOnlyNameAndSkills(u: User, first: string, skillsText: string)
    ensures var e := EditSkills(EditFirstName(StartEditing(InitialEditor(u)), first), skillsText);
      && Save(e, u).1 == Some(u.(firstName := first, skills := ParseSkills(skillsText)))
      && !Save(e, u).0.editing
  {
  }

  /** Opening the editor and saving at once leaves a record with clean skills as it was. */
  lemma SaveWithoutEditsIsIdentity(u: User)
    requires forall i :: 0 <= i < |u.skills| ==> u.skills[i] != "" && IsTrimmed(u.skills[i]) && ',' !in u.skills[i]
    ensures Save(StartEditing(InitialEditor(u)), u).1 == Some(u)
  {
    SkillsRoundTrip(u.skills);
  }
}
