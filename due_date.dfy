/** The label `formatDueDate` gives a due date, from the whole number of
    days between today and the due date (negative when it has passed). */
module DueDate {
  import opened Wrappers

  function DigitChar(d: nat): (c: char)
    requires d < 10
    ensures '0' <= c <= '9' && (c - '0') as nat == d
  {
    "0123456789"[d]
  }

  /** The decimal digits of `n`, as `${n}` writes them. */
  function NatToString(n: nat): (s: string)
    ensures |s| > 0
    ensures forall i :: 0 <= i < |s| ==> '0' <= s[i] <= '9'
    ensures |s| == 1 || s[0] != '0'
    decreases n
  {
    if n < 10 then [DigitChar(n)]
    else
      var high := NatToString(n / 10);
      assert |high| == 1 ==> high[0] == DigitChar(n / 10);
      high + [DigitChar(n % 10)]
  }

  /** The number a non-empty run of decimal digits denotes. */
  function ParseDigits(s: string): (r: Option<nat>)
    decreases |s|
  {
    if s == [] || !('0' <= s[|s| - 1] <= '9') then None
    else
      var d := (s[|s| - 1] - '0') as nat;
      if |s| == 1 then Some(d)
      else match ParseDigits(s[..|s| - 1])
        case None => None
        case Some(m) => Some(10 * m + d)
  }

  lemma {:induction false} DigitsRoundTrip(n: nat)
    ensures ParseDigits(NatToString(n)) == Some(n)
    decreases n
  {
    var s := NatToString(n);
    if n >= 10 {
      DigitsRoundTrip(n / 10);
      assert s[..|s| - 1] == NatToString(n / 10);
    }
  }

  /** The label for a day difference. */
  function DueDateLabel(diffDays: int): (r: string)
    ensures r == "Today" <==> diffDays == 0
    ensures r == "Tomorrow" <==> diffDays == 1
    ensures r == "Yesterday" <==> diffDays == -1
  {
    if diffDays == 0 then "Today"
    else if diffDays == 1 then "Tomorrow"
    else if diffDays == -1 then "Yesterday"
    else if diffDays < 0 then
      var past := NatToString(-diffDays) + " days ago";
      assert '0' <= past[0] <= '9';
      past
    else
      var future := "in " + NatToString(diffDays) + " days";
      assert future[0] == 'i';
      future
  }

  /** Reads a label back into its day difference. */
  function ParseDueDateLabel(text: string): Option<int> {
    if text == "Today" then Some(0 as int)
    else if text == "Tomorrow" then Some(1)
    else if text == "Yesterday" then Some(-1)
    else if |text| > 8 && text[..3] == "in " && text[|text| - 5..] == " days" then
      match ParseDigits(text[3..|text| - 5])
      case None => None
      case Some(n) => Some(n)
    else if |text| > 9 && text[|text| - 9..] == " days ago" then
      match ParseDigits(text[..|text| - 9])
      case None => None
      case Some(n) => Some(-(n as int))
    else None
  }

  /** Every day difference gets a label from which it can be read back, so
      no two differences share a label: 0 is "Today", 1 "Tomorrow", -1
      "Yesterday", d < -1 "|d| days ago", d > 1 "in d days". */
  lemma DueDateLabelRoundTrip(diffDays: int)
    ensures ParseDueDateLabel(DueDateLabel(diffDays)) == Some(diffDays)
  {
    if diffDays < -1 {
      PastLabelRoundTrip(-diffDays);
    } else if diffDays > 1 {
      FutureLabelRoundTrip(diffDays);
    } else {
      NearRoundTrip(diffDays);
    }
  }

  lemma PastLabelRoundTrip(n: nat)
    requires n > 1
    ensures DueDateLabel(-(n as int)) == NatToString(n) + " days ago"
    ensures ParseDueDateLabel(DueDateLabel(-(n as int))) == Some(-(n as int))
  {
    PastRoundTrip(n);
  }

  lemma FutureLabelRoundTrip(n: nat)
    requires n > 1
    ensures DueDateLabel(n) == "in " + NatToString(n) + " days"
    ensures ParseDueDateLabel(DueDateLabel(n)) == Some(n as int)
  {
    FutureRoundTrip(n);
  }

  lemma NearRoundTrip(diffDays: int)
    requires -1 <= diffDays <= 1
    ensures ParseDueDateLabel(DueDateLabel(diffDays)) == Some(diffDays)
  {
  }

  lemma PastRoundTrip(n: nat)
    requires n > 1
    ensures ParseDueDateLabel(NatToString(n) + " days ago") == Some(-(n as int))
  {
    var ds := NatToString(n);
    var text := ds + " days ago";
    DigitsRoundTrip(n);
    assert text[0] == ds[0];
    assert text != "Today" && text != "Tomorrow" && text != "Yesterday" by {
      assert text[0] != 'T' && text[0] != 'Y';
    }
    assert text[..3] != "in " by {
      assert text[..3][0] == text[0];
    }
    assert text[..|text| - 9] == ds;
    assert text[|text| - 9..] == " days ago";
  }

  lemma FutureRoundTrip(n: nat)
    requires n > 1
    ensures ParseDueDateLabel("in " + NatToString(n) + " days") == Some(n as int)
  {
    var ds := NatToString(n);
    var text := "in " + ds + " days";
    DigitsRoundTrip(n);
    assert text[0] == 'i';
    assert text != "Today" && text != "Tomorrow" && text != "Yesterday" by {
      assert text[0] != 'T' && text[0] != 'Y';
    }
    assert text[..3] == "in ";
    assert text[3..|text| - 5] == ds;
    assert text[|text| - 5..] == " days";
  }

  lemma DueDateLabelInjective(d1: int, d2: int)
    requires DueDateLabel(d1) == DueDateLabel(d2)
    ensures d1 == d2
  {
    DueDateLabelRoundTrip(d1);
    DueDateLabelRoundTrip(d2);
  }

  /** The concrete labels around today. */
  lemma DueDateLabelExamples()
    ensures DueDateLabel(0) == "Today" && DueDateLabel(1) == "Tomorrow" && DueDateLabel(-1) == "Yesterday"
    ensures DueDateLabel(3) == "in 3 days" && DueDateLabel(-12) == "12 days ago"
  {
    FutureLabelExample();
    PastLabelExample();
  }

  lemma FutureLabelExample()
    ensures DueDateLabel(3) == "in 3 days"
  {
    FutureLabelRoundTrip(3);
    assert NatToString(3) == "3" by {
      assert DigitChar(3) == '3';
    }
  }

  lemma PastLabelExample()
    ensures DueDateLabel(-12) == "12 days ago"
  {
    PastLabelRoundTrip(12);
    assert NatToString(12) == "12" by {
      assert NatToString(1) == [DigitChar(1)] == "1";
      assert DigitChar(2) == '2';
    }
  }
}
