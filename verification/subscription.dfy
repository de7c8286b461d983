/** The payment form's input formatters (src/pages/SubscriptionPage.tsx): the
    card-number grouping, the MM/YY expiry mask and the CVC digit filter. Each
    turns whatever the user typed into the text the field shows. */
module Subscription {
  import opened Text

  /** The first match of /\d{4,16}/ in a string of digits: its first sixteen
      digits, or nothing when it has fewer than four. */
  function FirstRun(digits: string): (run: string)
  {
    if |digits| < 4 then [] else digits[..Min(|digits|, 16)]
  }

  /** The blocks `substring(i, i + 4)` for i = 0, 4, 8, ...: consecutive groups
      of four, the last one possibly shorter. */
  function Chunks(s: string): (parts: seq<string>)
    ensures s == [] <==> parts == []
    decreases |s|
  {
    if s == [] then [] else [s[..Min(4, |s|)]] + Chunks(s[Min(4, |s|)..])
  }

  /** `Array.prototype.join(sep)`. */
  function Join(parts: seq<string>, sep: string): string
  {
    if parts == [] then ""
    else if |parts| == 1 then parts[0]
    else parts[0] + sep + Join(parts[1..], sep)
  }

  /** What formatCardNumber returns for `value`. */
  function FormattedCard(value: string): (r: string)
    ensures |Digits(value)| >= 4 ==> 4 <= |r| <= 19
  {
    var run := FirstRun(Digits(value));
    var parts := Chunks(run);
    if |parts| > 0 then
      JoinChunksGrouped(run);
      GroupedShape(Join(parts, " "), run);
      Join(parts, " ")
    else value
  }

  /** The blocks from position i on: the substring at i, then the blocks after it. */
  lemma ChunksFrom(s: string, i: nat)
    requires i < |s|
    ensures Chunks(s[i..]) == [Substring(s, i, i + 4)] + Chunks(s[Min(i + 4, |s|)..])
  {
    var t := s[i..];
    assert t[..Min(4, |t|)] == s[i..Min(i + 4, |s|)];
    assert t[Min(4, |t|)..] == s[Min(i + 4, |s|)..];
  }

  /** formatCardNumber: strip everything but digits, take the first run of
      four to sixteen digits and push its blocks of four one by one. */
  method FormatCardNumber(value: string) returns (formatted: string)
    ensures formatted == FormattedCard(value)
  {
    var v := Digits(value);
    var run := FirstRun(v);
    var parts: seq<string> := [];
    var i := 0;
    var len := |run|;
    while i < len
      invariant 0 <= i
      invariant parts + Chunks(run[Min(i, len)..]) == Chunks(run)
      decreases len - i
    {
      ChunksFrom(run, i);
      parts := parts + [Substring(run, i, i + 4)];
      i := i + 4;
    }
    assert run[Min(i, len)..] == [];
    assert parts == Chunks(run);
    if |parts| > 0 {
      formatted := Join(parts, " ");
    } else {
      formatted := value;
    }
  }

  /** r is the digits d written in blocks of four separated by single spaces:
      every fifth character is a space and character k is otherwise digit
      k - k / 5 of d. */
  ghost predicate GroupedAs(r: string, d: string)
  {
    && |r| == |d| + (|d| - 1) / 4
    && forall k :: 0 <= k < |r| ==>
         && (k % 5 == 4 ==> r[k] == ' ')
         && (k % 5 != 4 ==> k - k / 5 < |d| && r[k] == d[k - k / 5])
  }

  lemma ShiftByFive(k: int)
    requires k >= 5
    ensures (k - 5) % 5 == k % 5 && (k - 5) / 5 == k / 5 - 1
  {
  }

  lemma ShiftByFour(n: int)
    requires n > 4
    ensures (n - 1) / 4 == (n - 5) / 4 + 1
  {
  }

  lemma LastGroupPosition(n: int)
    requires n > 0
    ensures (n + (n - 1) / 4 - 1) % 5 != 4
  {
    var m := (n - 1) / 4;
    var j := n - 1 - 4 * m;
    assert 0 <= j < 4;
    assert n + m - 1 == 5 * m + j;
    assert (5 * m + j) % 5 == j;
  }

  lemma JoinChunksShort(d: string)
    requires 0 < |d| <= 4
    ensures Join(Chunks(d), " ") == d
  {
    assert d[..|d|] == d && d[|d|..] == [];
    assert Chunks(d) == [d] + Chunks(d[|d|..]);
  }

  lemma JoinChunksStep(d: string)
    requires |d| > 4
    ensures Join(Chunks(d), " ") == d[..4] + " " + Join(Chunks(d[4..]), " ")
  {
    assert Chunks(d) == [d[..4]] + Chunks(d[4..]);
    assert Chunks(d[4..]) != [];
  }

  /** Dropping the spaces from the joined blocks of a digit string, or every
      non-digit, gives the digits back. */
  lemma {:induction false} JoinChunksKeepsDigits(d: string)
    requires AllDigits(d) && d != []
    ensures var r := Join(Chunks(d), " ");
      WithoutSpaces(r) == d && Digits(r) == d
  {
    if |d| <= 4 {
      JoinChunksShort(d);
      WithoutSpacesOfDigits(d);
      DigitsFixedPoint(d);
    } else {
      var head, tail := d[..4], d[4..];
      JoinChunksKeepsDigits(tail);
      JoinChunksStep(d);
      var r' := Join(Chunks(tail), " ");
      assert d == head + tail;
      WithoutSpacesOfDigits(head);
      WithoutSpacesAppend(head, " ");
      WithoutSpacesAppend(head + " ", r');
      assert WithoutSpaces(" ") == "";
      DigitsFixedPoint(head);
      DigitsAppend(head, " ");
      DigitsAppend(head + " ", r');
      assert Digits(" ") == "";
    }
  }

  /** Joining the blocks of a non-empty string with spaces groups it. */
  lemma {:induction false} JoinChunksGrouped(d: string)
    requires d != []
    ensures GroupedAs(Join(Chunks(d), " "), d)
  {
    var r := Join(Chunks(d), " ");
    if |d| <= 4 {
      JoinChunksShort(d);
      assert forall k :: 0 <= k < |r| ==> k / 5 == 0 && k % 5 == k;
    } else {
      var tail := d[4..];
      JoinChunksGrouped(tail);
      JoinChunksStep(d);
      var r' := Join(Chunks(tail), " ");
      ShiftByFour(|d|);
      forall k | 0 <= k < |r|
        ensures k % 5 == 4 ==> r[k] == ' '
        ensures k % 5 != 4 ==> k - k / 5 < |d| && r[k] == d[k - k / 5]
      {
        if k >= 5 {
          assert r[k] == r'[k - 5];
          ShiftByFive(k);
          if k % 5 != 4 {
            var x := (k - 5) - (k - 5) / 5;
            assert x < |tail| && r'[k - 5] == tail[x];
            assert tail[x] == d[x + 4] && x + 4 == k - k / 5;
          }
        } else {
          assert k / 5 == 0 && k % 5 == k;
        }
      }
    }
  }

  /** A grouped string starts and ends with a digit, holds a digit wherever it
      holds no space, and has at most nineteen characters for sixteen digits. */
  lemma GroupedShape(r: string, d: string)
    requires GroupedAs(r, d) && AllDigits(d) && d != []
    ensures |r| > 0 && r[0] != ' ' && r[|r| - 1] != ' '
    ensures forall k :: 0 <= k < |r| ==> (r[k] == ' ' <==> k % 5 == 4)
    ensures forall k :: 0 <= k < |r| && r[k] != ' ' ==> IsDigit(r[k])
    ensures |d| <= 16 ==> |r| <= 19
  {
    LastGroupPosition(|d|);
    forall k | 0 <= k < |r| && k % 5 != 4
      ensures IsDigit(r[k])
    {
      assert IsDigit(d[k - k / 5]);
    }
  }

  /** Fewer than four digits typed: the input is shown as it was, non-digits
      included. */
  lemma FormattedCardShortInput(value: string)
    requires |Digits(value)| < 4
    ensures FormattedCard(value) == value
  {
  }

  /** Four digits or more: the output is the first sixteen of them (all of
      them if fewer) in blocks of four separated by single spaces, with no
      leading or trailing space and at most nineteen characters. */
  lemma FormattedCardGroups(value: string)
    requires |Digits(value)| >= 4
    ensures var run := Digits(value)[..Min(|Digits(value)|, 16)];
      var r := FormattedCard(value);
      && WithoutSpaces(r) == run
      && Digits(r) == run
      && GroupedAs(r, run)
      && r[0] != ' ' && r[|r| - 1] != ' '
      && (forall k :: 0 <= k < |r| ==> (r[k] == ' ' <==> k % 5 == 4))
      && (forall k :: 0 <= k < |r| && r[k] != ' ' ==> IsDigit(r[k]))
      && |r| <= 19
  {
    var run := Digits(value)[..Min(|Digits(value)|, 16)];
    assert FirstRun(Digits(value)) == run;
    var r := Join(Chunks(run), " ");
    assert FormattedCard(value) == r;
    JoinChunksKeepsDigits(run);
    JoinChunksGrouped(run);
    GroupedShape(r, run);
  }

  /** Formatting an already formatted card number changes nothing, so the
      field is stable under re-rendering. */
  lemma FormattedCardIdempotent(value: string)
    ensures FormattedCard(FormattedCard(value)) == FormattedCard(value)
  {
    if |Digits(value)| >= 4 {
      var run := Digits(value)[..Min(|Digits(value)|, 16)];
      FormattedCardGroups(value);
      assert FirstRun(run) == run;
    }
  }

  /** formatExpiry: the digits as MM/YY once two are typed, else the digits. */
  function FormatExpiry(value: string): (r: string)
    ensures |r| <= 5
  {
    var v := Digits(value);
    if |v| >= 2 then Substring(v, 0, 2) + "/" + Substring(v, 2, 4) else v
  }

  /** With two digits or more the output is the first two, a slash, and the
      next at most two (3 to 5 characters; later digits are dropped); with
      fewer it is the digits alone, every other character removed. */
  lemma ExpiryShape(value: string)
    ensures var v, r := Digits(value), FormatExpiry(value);
      && (|v| >= 2 ==>
            && r == v[..2] + "/" + v[2..Min(|v|, 4)]
            && 3 <= |r| <= 5 && r[2] == '/'
            && forall k :: 0 <= k < |r| && k != 2 ==> IsDigit(r[k]))
      && (|v| < 2 ==> r == v && |r| <= 1 && AllDigits(r))
  {
  }

  /** Formatting an already formatted expiry changes nothing. */
  lemma ExpiryIdempotent(value: string)
    ensures FormatExpiry(FormatExpiry(value)) == FormatExpiry(value)
  {
    var v, r := Digits(value), FormatExpiry(value);
    if |v| >= 2 {
      var a, b := v[..2], v[2..Min(|v|, 4)];
      assert r == a + "/" + b;
      DigitsAppend(a, "/");
      DigitsAppend(a + "/", b);
      assert Digits("/") == "";
      DigitsFixedPoint(a);
      DigitsFixedPoint(b);
      assert Digits(r) == a + b;
      assert (a + b)[..2] == a && (a + b)[2..Min(|a + b|, 4)] == b;
    } else {
      DigitsFixedPoint(v);
    }
  }

  /** The slash typed after the month survives: "12/" is shown as "12/". So
      does a slash the user erases: "12" is shown as "12/" again. */
  lemma ExpiryKeepsTypedSlash()
    ensures FormatExpiry("12/") == "12/"
    ensures FormatExpiry("12") == "12/"
  {
    DigitsFixedPoint("12");
    assert Digits("12/") == "12" by {
      DigitsAppend("12", "/");
      assert "12" + "/" == "12/";
      assert Digits("/") == "";
    }
  }

  /** The CVC field's handler: `value.replace(/[^0-9]/g, '')`. */
  function FilterCvc(value: string): (r: string)
    ensures AllDigits(r) && |r| <= |value|
  {
    Digits(value)
  }

  /** The CVC filter leaves only digits, keeps every digit in its original
      order, and filtering twice is filtering once. */
  lemma CvcFilter(value: string)
    ensures var r := FilterCvc(value);
      && AllDigits(r)
      && IsSubsequence(r, value)
      && (forall c :: IsDigit(c) ==> multiset(r)[c] == multiset(value)[c])
      && FilterCvc(r) == r
  {
    DigitsIsSubsequence(value);
    DigitsKeepsEveryDigit(value);
    DigitsFixedPoint(Digits(value));
  }
}
