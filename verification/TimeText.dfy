/** What the text of a time says: it reads back as the second it is of. */
module TimeText {
  import opened Clock

  predicate AllDigits(s: string) {
    forall i | 0 <= i < |s| :: '0' <= s[i] <= '9'
  }

  /** The number a text of digits spells. */
  function Number(s: string): nat
    requires AllDigits(s)
  {
    if s == "" then 0 else 10 * Number(s[..|s| - 1]) + (s[|s| - 1] - '0') as nat
  }

  lemma NumberSnoc(front: string, n: nat)
    requires AllDigits(front) && n < 10
    ensures AllDigits(front + [Digit(n)]) && Number(front + [Digit(n)]) == 10 * Number(front) + n
  {
    assert (front + [Digit(n)])[..|front|] == front;
  }

  lemma {:induction false} DigitsRead(n: nat)
    ensures AllDigits(Digits(n)) && Number(Digits(n)) == n
    ensures n < 10 ==> |Digits(n)| == 1
    ensures 10 <= n < 100 ==> |Digits(n)| == 2
  {
    if n < 10 {
      NumberSnoc("", n);
      assert "" + [Digit(n)] == [Digit(n)];
    } else {
      DigitsRead(n / 10);
      NumberSnoc(Digits(n / 10), n % 10);
    }
  }

  lemma {:induction false} ZerosInFront(zeros: nat, s: string)
    requires AllDigits(s)
    ensures var padded := seq(zeros, i => '0') + s; AllDigits(padded) && Number(padded) == Number(s)
    decreases |s|, zeros
  {
    var padded := seq(zeros, i => '0') + s;
    assert forall i :: 0 <= i < |padded| ==> padded[i] == if i < zeros then '0' else s[i - zeros];
    if s == "" {
      if zeros > 0 {
        ZerosInFront(zeros - 1, s);
        assert padded[..|padded| - 1] == seq(zeros - 1, i => '0') + s;
      }
    } else {
      ZerosInFront(zeros, s[..|s| - 1]);
      assert padded[..|padded| - 1] == seq(zeros, i => '0') + s[..|s| - 1];
    }
  }

  /** A padded number reads back, and has the width when it fits. */
  lemma PaddedReads(n: nat, width: nat)
    ensures AllDigits(Padded(n, width)) && Number(Padded(n, width)) == n && |Padded(n, width)| >= width
    ensures n < 100 && width == 2 ==> |Padded(n, width)| == 2
  {
    DigitsRead(n);
    if |Digits(n)| < width {
      ZerosInFront(width - |Digits(n)|, Digits(n));
    }
  }

  /** The six numbers of a text of a time. */
  datatype Parts = Parts(year: string, month: string, day: string, hour: string, minute: string, second: string)

  ghost predicate Spelled(p: Parts) {
    && AllDigits(p.year) && AllDigits(p.month) && AllDigits(p.day) && AllDigits(p.hour) && AllDigits(p.minute)
    && AllDigits(p.second)
    && |p.year| >= 4 && |p.month| == |p.day| == |p.hour| == |p.minute| == |p.second| == 2
  }

  /** They name a day of the calendar and a time of that day, and this is the second. */
  ghost predicate Names(p: Parts, secs: nat)
    requires Spelled(p)
  {
    var date := Date(Number(p.year), Number(p.month), Number(p.day));
    && ValidDate(date) && Number(p.hour) < 24 && Number(p.minute) < 60 && Number(p.second) < 60
    && secs == DayNumber(date) * 86400 + Number(p.hour) * 3600 + Number(p.minute) * 60 + Number(p.second)
  }

  /** A rendered time is six numbers with their marks, and they name the second it is of. */
  lemma RenderReadsBack(secs: nat) returns (p: Parts)
    ensures RenderRfc3339(secs)
      == p.year + "-" + p.month + "-" + p.day + "T" + p.hour + ":" + p.minute + ":" + p.second + "Z"
    ensures Spelled(p) && Names(p, secs)
  {
    CivilCorrect(secs / 86400);
    YearFrom1970(secs / 86400);
    var d, rem := CivilFromDays(secs / 86400), secs % 86400;
    p := Parts(Padded(d.year, 4), Padded(d.month, 2), Padded(d.day, 2),
               Padded(rem / 3600, 2), Padded(rem % 3600 / 60, 2), Padded(rem % 60, 2));
    hide CivilFromDays, DayNumber, Padded;
    DayAndMonth(d);
    PaddedReads(d.year, 4);
    PaddedReads(d.month, 2);
    PaddedReads(d.day, 2);
    PaddedReads(rem / 3600, 2);
    PaddedReads(rem % 3600 / 60, 2);
    PaddedReads(rem % 60, 2);
    TimeOfDay(secs);
    hide Number, AllDigits, ValidDate;
  }

  lemma DayAndMonth(d: Date)
    requires ValidDate(d)
    ensures 0 < d.month < 100 && 0 < d.day < 100
  {
  }

  lemma TimeOfDay(secs: nat)
    ensures var rem := secs % 86400;
      && rem / 3600 < 24 && rem % 3600 / 60 < 60 && rem % 60 < 60
      && secs == secs / 86400 * 86400 + rem / 3600 * 3600 + rem % 3600 / 60 * 60 + rem % 60
  {
    var rem := secs % 86400;
    assert rem == rem / 3600 * 3600 + rem % 3600;
    assert rem % 3600 == rem % 3600 / 60 * 60 + rem % 3600 % 60;
    assert rem % 3600 % 60 == rem % 60;
  }
}
