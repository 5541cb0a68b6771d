/** The status label shown for an order that is still in progress. The label
    is chosen from the order's age in whole minutes by four bands over the
    minutes left of a nominal 20-minute preparation window. */
module StatusLabel {
  import opened Wrappers
  import Decimal

  /** Nominal preparation window, in minutes. */
  const PrepMinutes: int := 20

  const JustPlacedText: string := "Just placed"
  const AlmostReadyText: string := "Almost ready"
  const AgoSuffix: string := " mins ago"
  const LeftSuffix: string := " mins"

  /** What a label tells the kitchen display. */
  datatype Status = JustPlaced | AlmostReady | MinutesLeft(left: nat) | MinutesAgo(age: nat)

  /** Reference definition of the bands, stated on the age itself rather than
      on the minutes left: the first two minutes are "just placed", minutes 2
      to 14 count down, minutes 15 to 19 are "almost ready", and from minute
      20 on the age is shown. */
  function StatusOf(age: int): (s: Status)
    ensures s.JustPlaced? <==> age < 2
    ensures s.MinutesLeft? <==> 2 <= age < 15
    ensures s.AlmostReady? <==> 15 <= age < 20
    ensures s.MinutesAgo? <==> 20 <= age
    ensures s.MinutesLeft? ==> 6 <= s.left <= 18 && s.left + age == PrepMinutes
    ensures s.MinutesAgo? ==> s.age == age
  {
    if age < 2 then JustPlaced
    else if age < 15 then MinutesLeft(20 - age)
    else if age < 20 then AlmostReady
    else MinutesAgo(age)
  }

  /** The text a status is displayed as. */
  function Render(s: Status): string {
    match s
    case JustPlaced => JustPlacedText
    case AlmostReady => AlmostReadyText
    case MinutesLeft(n) => Decimal.FromNat(n) + LeftSuffix
    case MinutesAgo(n) => Decimal.FromNat(n) + AgoSuffix
  }

  /** The label as the handler chooses it: the first band that matches, over
      `minsLeft = 20 - age`, with `<= 0`, `> 18` and `<= 5` as the three
      tests in that order and the count of minutes left otherwise. */
  function Label(age: int): (text: string)
    ensures text == Render(StatusOf(age))
  {
    var minsLeft := PrepMinutes - age;
    if minsLeft <= 0 then Decimal.FromNat(age) + AgoSuffix
    else if minsLeft > 18 then JustPlacedText
    else if minsLeft <= 5 then AlmostReadyText
    else Decimal.FromNat(minsLeft) + LeftSuffix
  }

  /** Reads a text back into the status it displays. */
  function Parse(text: string): Option<Status> {
    if text == JustPlacedText then Some(JustPlaced)
    else if text == AlmostReadyText then Some(AlmostReady)
    else if |text| > |AgoSuffix| && text[|text| - |AgoSuffix|..] == AgoSuffix
            && Decimal.AllDigits(text[..|text| - |AgoSuffix|])
    then Some(MinutesAgo(Decimal.ToNat(text[..|text| - |AgoSuffix|])))
    else if |text| > |LeftSuffix| && text[|text| - |LeftSuffix|..] == LeftSuffix
            && Decimal.AllDigits(text[..|text| - |LeftSuffix|])
    then Some(MinutesLeft(Decimal.ToNat(text[..|text| - |LeftSuffix|])))
    else None
  }

  /** Every status is recovered from its rendering. */
  lemma ParseRender(s: Status)
    ensures Parse(Render(s)) == Some(s)
  {
    match s
    case JustPlaced =>
    case AlmostReady =>
      assert AlmostReadyText[0] != JustPlacedText[0];
    case MinutesLeft(n) =>
      var digits := Decimal.FromNat(n);
      var text := digits + LeftSuffix;
      assert text[0] == digits[0] && Decimal.IsDigit(text[0]);
      assert text != JustPlacedText by { assert JustPlacedText[0] == 'J'; }
      assert text != AlmostReadyText by { assert AlmostReadyText[0] == 'A'; }
      assert text[|text| - 1] == 's';
      assert text[|text| - |LeftSuffix|..] == LeftSuffix;
      assert text[..|text| - |LeftSuffix|] == digits;
      if |text| > |AgoSuffix| {
        assert text[|text| - |AgoSuffix|..][|AgoSuffix| - 1] == 's';
      }
      Decimal.ToNatFromNat(n);
    case MinutesAgo(n) =>
      var digits := Decimal.FromNat(n);
      var text := digits + AgoSuffix;
      assert text[0] == digits[0] && Decimal.IsDigit(text[0]);
      assert text != JustPlacedText by { assert JustPlacedText[0] == 'J'; }
      assert text != AlmostReadyText by { assert AlmostReadyText[0] == 'A'; }
      assert text[|text| - |AgoSuffix|..] == AgoSuffix;
      assert text[..|text| - |AgoSuffix|] == digits;
      Decimal.ToNatFromNat(n);
  }

  /** Two ages get the same text exactly when they fall in the same band with
      the same displayed number: the text loses nothing but the position
      inside the "just placed" and "almost ready" bands. */
  lemma SameLabelIffSameStatus(a: int, b: int)
    ensures Label(a) == Label(b) <==> StatusOf(a) == StatusOf(b)
  {
    if Label(a) == Label(b) {
      ParseRender(StatusOf(a));
      ParseRender(StatusOf(b));
    }
  }

  /** The boundary values of the two fixed-text bands. */
  lemma FixedTextBoundaries()
    ensures Label(-3) == "Just placed" && Label(0) == "Just placed" && Label(1) == "Just placed"
    ensures Label(15) == "Almost ready" && Label(16) == "Almost ready" && Label(19) == "Almost ready"
  {
  }

  /** The boundary values of the countdown band. */
  lemma CountdownBoundaries()
    ensures Label(2) == "18 mins" && Label(3) == "17 mins" && Label(14) == "6 mins"
  {
    assert Label(2) == Decimal.FromNat(18) + LeftSuffix;
    assert Label(3) == Decimal.FromNat(17) + LeftSuffix;
    assert Label(14) == Decimal.FromNat(6) + LeftSuffix;
    assert Decimal.FromNat(18) == "18" by { TwoDigits(18); }
    assert Decimal.FromNat(17) == "17" by { TwoDigits(17); }
    assert Decimal.FromNat(6) == "6";
  }

  /** The boundary values of the overdue band, up to the staleness cut-off. */
  lemma OverdueBoundaries()
    ensures Label(20) == "20 mins ago" && Label(25) == "25 mins ago" && Label(35) == "35 mins ago"
  {
    assert Label(20) == Decimal.FromNat(20) + AgoSuffix;
    assert Label(25) == Decimal.FromNat(25) + AgoSuffix;
    assert Label(35) == Decimal.FromNat(35) + AgoSuffix;
    assert Decimal.FromNat(20) == "20" by { TwoDigits(20); }
    assert Decimal.FromNat(25) == "25" by { TwoDigits(25); }
    assert Decimal.FromNat(35) == "35" by { TwoDigits(35); }
  }

  /** Two-digit numerals, for the boundary values above. */
  lemma TwoDigits(n: nat)
    requires 10 <= n < 100
    ensures Decimal.FromNat(n) == [Decimal.DigitChar(n / 10), Decimal.DigitChar(n % 10)]
  {
    assert Decimal.FromNat(n / 10) == [Decimal.DigitChar(n / 10)];
  }
}
