/** The dashboard's student-list widget: each student's avatar initials,
    avatar address, progress badge and its colour, and the empty state. The
    progress figures are random in the widget, so they are a parameter
    here. */
module StudentList {
  import opened Common
  import opened Text
  import opened Types
  import DashboardPage

  /** The first character of each part, an empty part contributing
      nothing (`n[0]` is `undefined`, which `join` writes as ""). */
  function FirstChars(parts: seq<string>): (r: string)
    ensures |r| <= |parts|
  {
    if |parts| == 0 then ""
    else (if |parts[0]| > 0 then [parts[0][0]] else "") + FirstChars(parts[1..])
  }

  /** `getInitials`: split on single spaces, take each part's first
      character, join and upper-case. */
  function Initials(name: string): (r: string)
    ensures |r| <= Occurrences(name, ' ') + 1
  {
    ToUpper(FirstChars(Split(name, ' ')))
  }

  /** Reference definition: the characters that start a word, i.e. that
      are not a space and follow a space or the start of the name.
      `afterSpace` says whether the previous character was a space. */
  function WordStarts(s: string, afterSpace: bool): string {
    if |s| == 0 then ""
    else (if afterSpace && s[0] != ' ' then [s[0]] else "") + WordStarts(s[1..], s[0] == ' ')
  }

  /** Splitting and taking first characters picks exactly the word
      starts. */
  lemma {:induction false} FirstCharsAreWordStarts(s: string)
    ensures FirstChars(Split(s, ' ')) == WordStarts(s, true)
    ensures |Split(s, ' ')| > 0 && FirstChars(Split(s, ' ')[1..]) == WordStarts(s, false)
    decreases |s|
  {
    if |s| == 0 {
      assert Split(s, ' ') == [""];
      assert Split(s, ' ')[1..] == [];
    } else {
      var rest := Split(s[1..], ' ');
      FirstCharsAreWordStarts(s[1..]);
      if s[0] == ' ' {
        assert Split(s, ' ') == [""] + rest;
        assert ([""] + rest)[1..] == rest;
      } else {
        var r := [[s[0]] + rest[0]] + rest[1..];
        assert Split(s, ' ') == r;
        assert r[1..] == rest[1..];
      }
    }
  }

  /** The initials are the upper-cased word starts of the name. */
  lemma InitialsAreWordStarts(name: string)
    ensures Initials(name) == ToUpper(WordStarts(name, true))
  {
    FirstCharsAreWordStarts(name);
  }

  /** A first and a last name, each without spaces, give two initials. */
  lemma TwoWordInitials(first: string, last: string)
    requires |first| > 0 && |last| > 0
    requires ' ' !in first && ' ' !in last
    ensures Initials(first + " " + last) == [UpperChar(first[0]), UpperChar(last[0])]
  {
    InitialsAreWordStarts(first + " " + last);
    NoSpaceStarts(first, true);
    NoSpaceStarts(last, true);
    assert first + " " + last == first + (" " + last);
    WordStartsAppend(first, " " + last, true);
    assert (" " + last)[1..] == last;
    assert WordStarts(" " + last, false) == WordStarts(last, true);
    assert WordStarts(first + " " + last, true) == [first[0], last[0]];
  }

  /** A word without spaces has one start, its first character, when it
      begins a word, and none otherwise. */
  lemma {:induction false} NoSpaceStarts(w: string, afterSpace: bool)
    requires ' ' !in w
    ensures WordStarts(w, afterSpace) == (if afterSpace && |w| > 0 then [w[0]] else "")
    decreases |w|
  {
    if |w| > 0 {
      assert ' ' !in w[1..] by {
        forall i | 0 <= i < |w[1..]| ensures w[1..][i] != ' ' {
          assert w[1..][i] == w[i + 1];
        }
      }
      NoSpaceStarts(w[1..], false);
    }
  }

  /** The word starts of a concatenation: the second part continues after
      the last character of the first. */
  lemma {:induction false} WordStartsAppend(a: string, b: string, afterSpace: bool)
    requires |a| > 0
    ensures WordStarts(a + b, afterSpace) == WordStarts(a, afterSpace) + WordStarts(b, a[|a| - 1] == ' ')
    decreases |a|
  {
    assert (a + b)[0] == a[0];
    assert (a + b)[1..] == a[1..] + b;
    if |a| > 1 {
      WordStartsAppend(a[1..], b, a[0] == ' ');
    } else {
      assert a[1..] == [];
      assert a[1..] + b == b;
    }
  }

  /** The progress badge's colour. */
  datatype BadgeColour = Green | Yellow | Red

  /** Green from 75, yellow from 50, red below. */
  function ProgressColour(p: int): (c: BadgeColour)
    ensures c == Green <==> p >= 75
    ensures c == Red <==> p < 50
  {
    if p >= 75 then Green else if p >= 50 then Yellow else Red
  }

  function ColourRank(c: BadgeColour): nat {
    match c
    case Red => 0
    case Yellow => 1
    case Green => 2
  }

  /** More progress never gives a worse colour. */
  lemma ProgressColourMonotone(p: int, q: int)
    requires p <= q
    ensures ColourRank(ProgressColour(p)) <= ColourRank(ProgressColour(q))
  {
  }

  /** One row of the list. */
  datatype Row = Row(id: string, name: string, initials: string, avatarUrl: string,
                     progress: int, colour: BadgeColour, badge: string)

  datatype ListView = NoStudents | Rows(rows: seq<Row>)

  const EmptyMessage: string := "No students found"

  const AvatarBase: string := "https://api.dicebear.com/7.x/fun-emoji/svg?seed="

  function RowFor(u: User, p: nat): Row {
    Row(u.id, u.name, Initials(u.name), AvatarBase + u.id, p, ProgressColour(p),
        NatToString(p) + "% Progress")
  }

  /** The widget: the empty state for no students, else one row per
      student in the order given, with the progress figure drawn for it
      (`Math.floor(Math.random() * 100)`, so 0 to 99). */
  function Render(students: seq<User>, progress: seq<nat>): (v: ListView)
    requires |progress| == |students|
    ensures v == NoStudents <==> |students| == 0
    ensures v.Rows? ==> |v.rows| == |students|
    ensures v.Rows? ==> forall i :: 0 <= i < |students| ==>
              v.rows[i].id == students[i].id && v.rows[i].name == students[i].name
              && v.rows[i].initials == Initials(students[i].name)
              && v.rows[i].avatarUrl == AvatarBase + students[i].id
              && v.rows[i].colour == ProgressColour(progress[i])
              && v.rows[i].progress == progress[i]
              && v.rows[i].badge == NatToString(progress[i]) + "% Progress"
  {
    if |students| == 0 then NoStudents
    else Rows(seq(|students|, i requires 0 <= i < |students| => RowFor(students[i], progress[i])))
  }

  /** The badge text "<n>% Progress" gives the figure back. */
  lemma BadgeShowsProgress(u: User, p: nat)
    ensures DecimalValue(RowFor(u, p).badge[..|RowFor(u, p).badge| - 10]) == p
  {
    var b := RowFor(u, p).badge;
    assert b[..|b| - 10] == NatToString(p);
    NatToStringValue(p);
  }

  /** On the dashboard the widget is empty exactly when the dashboard
      found no students for the viewer; in particular a teacher or school
      admin without a school always sees "No students found". */
  lemma DashboardListEmpty(v: Viewer, users: seq<User>, progress: seq<nat>)
    requires |progress| == |DashboardPage.GetStudents(v, users)|
    ensures Render(DashboardPage.GetStudents(v, users), progress) == NoStudents
            <==> DashboardPage.GetStudents(v, users) == []
    ensures !HasRole(v, SuperAdmin) && !HasSchool(v)
            ==> Render(DashboardPage.GetStudents(v, users), progress) == NoStudents
    ensures Render(DashboardPage.GetStudents(v, users), progress).Rows?
            ==> |Render(DashboardPage.GetStudents(v, users), progress).rows| <= 5
  {
  }
}
