/** The dashboard's upcoming-assignments widget: the assignments sorted by
    due date on a copy (`Array.prototype.sort` is stable), the whole days
    left until each is due, each card's badge colour and text, and the empty
    state. Times are milliseconds since the epoch; `now` is the clock
    reading the widget takes. */
module UpcomingAssignments {
  import opened Common
  import opened Text
  import opened Types
  import AssignmentsPage

  /** One day in milliseconds. */
  const Day: int := 24 * 60 * 60 * 1000

  predicate SortedByDue(s: seq<Assignment>) {
    forall i, j :: 0 <= i < j < |s| ==> s[i].dueDate <= s[j].dueDate
  }

  /** The assignments due at instant `k`. */
  function DueAt(k: int): Assignment -> bool {
    (a: Assignment) => a.dueDate == k
  }

  /** Places `x` before the first element due no earlier than it. */
  function Insert(x: Assignment, t: seq<Assignment>): (r: seq<Assignment>)
    ensures |r| == |t| + 1
    ensures multiset(r) == multiset(t) + multiset{x}
    ensures forall y :: y in r <==> y == x || y in t
  {
    if |t| == 0 then [x]
    else if x.dueDate <= t[0].dueDate then [x] + t
    else
      assert t == [t[0]] + t[1..];
      [t[0]] + Insert(x, t[1..])
  }

  /** Inserting into a list in due order keeps it in due order. */
  lemma {:induction false} InsertSorted(x: Assignment, t: seq<Assignment>)
    requires SortedByDue(t)
    ensures SortedByDue(Insert(x, t))
    decreases |t|
  {
    if |t| > 0 && x.dueDate > t[0].dueDate {
      var rest := t[1..];
      TailSorted(t);
      InsertSorted(x, rest);
      var r' := Insert(x, rest);
      forall y | y in r' ensures t[0].dueDate <= y.dueDate {
        if y != x {
          var j :| 0 <= j < |rest| && rest[j] == y;
          assert rest[j] == t[j + 1];
        }
      }
      ConsSorted(t[0], r');
    } else if |t| > 0 {
      forall y | y in t ensures x.dueDate <= y.dueDate {
        var j :| 0 <= j < |t| && t[j] == y;
      }
      ConsSorted(x, t);
    }
  }

  /** The tail of a list in due order is in due order. */
  lemma TailSorted(t: seq<Assignment>)
    requires |t| > 0 && SortedByDue(t)
    ensures SortedByDue(t[1..])
  {
    var rest := t[1..];
    forall i, j | 0 <= i < j < |rest| ensures rest[i].dueDate <= rest[j].dueDate {
      assert rest[i] == t[i + 1] && rest[j] == t[j + 1];
    }
  }

  /** An element due no later than anything in a list in due order can go
      in front of it. */
  lemma ConsSorted(y: Assignment, t: seq<Assignment>)
    requires SortedByDue(t)
    requires forall z :: z in t ==> y.dueDate <= z.dueDate
    ensures SortedByDue([y] + t)
  {
    var r := [y] + t;
    forall i, j | 0 <= i < j < |r| ensures r[i].dueDate <= r[j].dueDate {
      assert r[j] == t[j - 1];
      if i > 0 {
        assert r[i] == t[i - 1];
      }
    }
  }

  /** Inserting `x` adds it in front of every element due at the same
      instant, and leaves the relative order of those elements alone. */
  lemma {:induction false} InsertStable(x: Assignment, t: seq<Assignment>, k: int)
    ensures Filter(Insert(x, t), DueAt(k))
            == (if x.dueDate == k then [x] + Filter(t, DueAt(k)) else Filter(t, DueAt(k)))
    decreases |t|
  {
    var r := Insert(x, t);
    if |t| == 0 {
      assert r[1..] == [];
    } else if x.dueDate <= t[0].dueDate {
      assert r[0] == x && r[1..] == t;
    } else {
      assert r[0] == t[0] && r[1..] == Insert(x, t[1..]);
      InsertStable(x, t[1..], k);
    }
  }

  /** `[...assignments].sort((a, b) => a.dueDate - b.dueDate)`: a stable
      insertion sort of a copy by due date. */
  function SortByDue(s: seq<Assignment>): (r: seq<Assignment>)
    ensures |r| == |s|
    ensures multiset(r) == multiset(s)
    ensures SortedByDue(r)
  {
    if |s| == 0 then []
    else
      assert s == [s[0]] + s[1..];
      InsertSorted(s[0], SortByDue(s[1..]));
      Insert(s[0], SortByDue(s[1..]))
  }

  /** Stability: the assignments due at any one instant keep the order
      they had in the input. */
  lemma {:induction false} SortStable(s: seq<Assignment>, k: int)
    ensures Filter(SortByDue(s), DueAt(k)) == Filter(s, DueAt(k))
    decreases |s|
  {
    if |s| > 0 {
      SortStable(s[1..], k);
      InsertStable(s[0], SortByDue(s[1..]), k);
    }
  }

  /** Sorting a list already in due order changes nothing. */
  lemma {:induction false} SortKeepsSorted(s: seq<Assignment>)
    requires SortedByDue(s)
    ensures SortByDue(s) == s
    decreases |s|
  {
    if |s| > 0 {
      var rest := s[1..];
      TailSorted(s);
      SortKeepsSorted(rest);
      SortStep(s);
      assert |rest| > 0 ==> s[0].dueDate <= rest[0].dueDate by {
        if |rest| > 0 {
          assert rest[0] == s[1];
        }
      }
      InsertFront(s[0], rest);
      assert s == [s[0]] + rest;
    }
  }

  /** Sorting a non-empty list inserts its head into its sorted tail. */
  lemma SortStep(s: seq<Assignment>)
    requires |s| > 0
    ensures SortByDue(s) == Insert(s[0], SortByDue(s[1..]))
  {
  }

  /** An element due no later than the head goes in front. */
  lemma InsertFront(x: Assignment, t: seq<Assignment>)
    requires |t| == 0 || x.dueDate <= t[0].dueDate
    ensures Insert(x, t) == [x] + t
  {
  }

  /** `getDaysRemaining`: the time to the due date in days, rounded up
      (`Math.ceil`); zero for anything due within the last day or now. */
  function DaysRemaining(due: int, now: int): (d: int)
    ensures (d - 1) * Day < due - now <= d * Day
  {
    -((now - due) / Day)
  }

  /** The bounds pin the day count down: it is the ceiling. */
  lemma DaysRemainingIsCeiling(due: int, now: int, d: int)
    requires (d - 1) * Day < due - now <= d * Day
    ensures DaysRemaining(due, now) == d
  {
  }

  /** A later due date never has fewer days left. */
  lemma DaysRemainingMonotone(due1: int, due2: int, now: int)
    requires due1 <= due2
    ensures DaysRemaining(due1, now) <= DaysRemaining(due2, now)
  {
  }

  /** The badge colour. */
  datatype Urgency = Red | Yellow | Green

  /** Red up to one day left (overdue included), yellow up to three, green
      beyond. */
  function UrgencyOf(days: int): (u: Urgency)
    ensures u == Red <==> days <= 1
    ensures u == Green <==> days > 3
  {
    if days <= 1 then Red else if days <= 3 then Yellow else Green
  }

  function UrgencyRank(u: Urgency): nat {
    match u
    case Red => 0
    case Yellow => 1
    case Green => 2
  }

  /** More days left never means a more urgent colour. */
  lemma UrgencyMonotone(d1: int, d2: int)
    requires d1 <= d2
    ensures UrgencyRank(UrgencyOf(d1)) <= UrgencyRank(UrgencyOf(d2))
  {
  }

  /** The badge text. */
  datatype DueLabel = DueToday | OverdueBy(days: nat) | DaysLeft(days: nat)

  function LabelOf(days: int): (l: DueLabel)
    ensures l == DueToday <==> days == 0
    ensures l.OverdueBy? <==> days < 0
    ensures l.OverdueBy? ==> l.days == -days
    ensures l.DaysLeft? ==> l.days == days
  {
    if days == 0 then DueToday
    else if days < 0 then OverdueBy(-days)
    else DaysLeft(days)
  }

  /** "Due today", "Overdue by n days" or "n days left". */
  function LabelText(l: DueLabel): (t: string)
    ensures |t| > 0
  {
    match l
    case DueToday => "Due today"
    case OverdueBy(n) => "Overdue by " + NatToString(n) + " days"
    case DaysLeft(n) => NatToString(n) + " days left"
  }

  predicate AllDigits(s: string) {
    forall i :: 0 <= i < |s| ==> '0' <= s[i] <= '9'
  }

  /** Reads a badge text back; `None` for any text the badge never shows. */
  function ParseLabel(t: string): (r: Option<DueLabel>)
    ensures r.Some? ==> |t| > 0
  {
    if t == "Due today" then Some(DueToday)
    else if |t| > 16 && t[..11] == "Overdue by " && t[|t| - 5..] == " days" && AllDigits(t[11..|t| - 5])
    then Some(OverdueBy(DecimalValue(t[11..|t| - 5])))
    else if |t| > 10 && t[|t| - 10..] == " days left" && AllDigits(t[..|t| - 10])
    then Some(DaysLeft(DecimalValue(t[..|t| - 10])))
    else None
  }

  lemma ParseOverdue(n: nat)
    ensures ParseLabel(LabelText(OverdueBy(n))) == Some(OverdueBy(n))
  {
    var d := NatToString(n);
    var t := LabelText(OverdueBy(n));
    assert t == "Overdue by " + d + " days";
    assert t[0] == 'O';
    assert t[..11] == "Overdue by " && t[|t| - 5..] == " days" && t[11..|t| - 5] == d;
    NatToStringValue(n);
  }

  lemma ParseDaysLeft(n: nat)
    ensures ParseLabel(LabelText(DaysLeft(n))) == Some(DaysLeft(n))
  {
    var d := NatToString(n);
    var t := LabelText(DaysLeft(n));
    assert t == d + " days left";
    assert t[0] == d[0];
    assert "Due today"[0] == 'D' && "Overdue by "[0] == 'O';
    assert t[|t| - 10..] == " days left" && t[..|t| - 10] == d;
    NatToStringValue(n);
  }

  /** Reading a badge text back gives the label it shows. */
  lemma ParseLabelText(l: DueLabel)
    ensures ParseLabel(LabelText(l)) == Some(l)
  {
    match l
    case DueToday =>
    case OverdueBy(n) => ParseOverdue(n);
    case DaysLeft(n) => ParseDaysLeft(n);
  }

  /** The badge text determines the day count: two cards with the same
      text have the same number of days left. */
  lemma LabelTextDeterminesDays(a: int, b: int)
    requires LabelText(LabelOf(a)) == LabelText(LabelOf(b))
    ensures a == b
  {
    ParseLabelText(LabelOf(a));
    ParseLabelText(LabelOf(b));
  }

  /** One rendered card. */
  datatype Card = Card(assignment: Assignment, urgency: Urgency, badge: string)

  /** The widget body: the empty state, or one card per assignment in due
      order. */
  datatype Widget = NoUpcoming | Cards(cards: seq<Card>)

  const EmptyMessage: string := "No upcoming assignments"

  function CardFor(a: Assignment, now: int): Card {
    var d := DaysRemaining(a.dueDate, now);
    Card(a, UrgencyOf(d), LabelText(LabelOf(d)))
  }

  /** The assignments of the cards, top to bottom. */
  function CardAssignments(cards: seq<Card>): (r: seq<Assignment>)
    ensures |r| == |cards|
    ensures forall i :: 0 <= i < |cards| ==> r[i] == cards[i].assignment
  {
    seq(|cards|, i requires 0 <= i < |cards| => cards[i].assignment)
  }

  function Render(assignments: seq<Assignment>, now: int): (w: Widget)
    ensures w == NoUpcoming <==> |assignments| == 0
    ensures w.Cards? ==> multiset(CardAssignments(w.cards)) == multiset(assignments)
    ensures w.Cards? ==> SortedByDue(CardAssignments(w.cards))
    ensures w.Cards? ==> CardAssignments(w.cards) == SortByDue(assignments)
    ensures w.Cards? ==> forall i :: 0 <= i < |w.cards| ==>
              var d := DaysRemaining(w.cards[i].assignment.dueDate, now);
              w.cards[i].urgency == UrgencyOf(d) && w.cards[i].badge == LabelText(LabelOf(d))
  {
    var sorted := SortByDue(assignments);
    if |sorted| == 0 then NoUpcoming
    else
      var cards := seq(|sorted|, i requires 0 <= i < |sorted| => CardFor(sorted[i], now));
      assert CardAssignments(cards) == sorted;
      Cards(cards)
  }

  /** Down the list the colours run red, then yellow, then green: a card
      is never more urgent than the one above it. */
  lemma RenderUrgencyOrdered(assignments: seq<Assignment>, now: int)
    ensures var w := Render(assignments, now);
            w.Cards? ==> forall i, j :: 0 <= i < j < |w.cards| ==>
              UrgencyRank(w.cards[i].urgency) <= UrgencyRank(w.cards[j].urgency)
  {
    var w := Render(assignments, now);
    if w.Cards? {
      forall i, j | 0 <= i < j < |w.cards|
        ensures UrgencyRank(w.cards[i].urgency) <= UrgencyRank(w.cards[j].urgency)
      {
        var a, b := w.cards[i].assignment, w.cards[j].assignment;
        assert a.dueDate <= b.dueDate by {
          assert CardAssignments(w.cards)[i] == a && CardAssignments(w.cards)[j] == b;
        }
        DaysRemainingMonotone(a.dueDate, b.dueDate, now);
        UrgencyMonotone(DaysRemaining(a.dueDate, now), DaysRemaining(b.dueDate, now));
      }
    }
  }

  /** How the assignments page's status relates to this widget's days:
      an overdue assignment shows red with no days left, a "soon" one at
      most three days and never green, an "upcoming" one at least three
      days and never red. */
  lemma DueStatusAgreesWithDays(due: int, now: int)
    ensures AssignmentsPage.DueStatusOf(due, now) == AssignmentsPage.Overdue
            ==> DaysRemaining(due, now) <= 0 && UrgencyOf(DaysRemaining(due, now)) == Red
    ensures AssignmentsPage.DueStatusOf(due, now) == AssignmentsPage.Soon
            ==> 0 <= DaysRemaining(due, now) <= 3 && UrgencyOf(DaysRemaining(due, now)) != Green
    ensures AssignmentsPage.DueStatusOf(due, now) == AssignmentsPage.Upcoming
            ==> DaysRemaining(due, now) >= 3 && UrgencyOf(DaysRemaining(due, now)) != Red
  {
  }

  /** The two components can disagree in words: an assignment due a
      millisecond ago is "overdue" on the assignments page but "Due today"
      here. */
  lemma OverdueYetDueToday(now: int)
    ensures AssignmentsPage.DueStatusOf(now - 1, now) == AssignmentsPage.Overdue
    ensures LabelText(LabelOf(DaysRemaining(now - 1, now))) == "Due today"
  {
  }
}
