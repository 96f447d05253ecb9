/**
 Amounts as text (apps/web/lib/workflow.ts). An amount is a number of minor units in decimal digits;
 formatMinorAmount prints it for people, majorToMinor reads what people type. Numbers have any size.
 */
module MoneyText {
  import opened Common

  // ----- Decimal text: BigInt(text) and number.toString() -----

  predicate IsDigit(c: char) {
    '0' <= c <= '9'
  }

  predicate AllDigits(s: string) {
    forall i | 0 <= i < |s| :: IsDigit(s[i])
  }

  /** Positive, without leading zeros: how the API writes amounts. */
  predicate Canonical(s: string) {
    s != "" && AllDigits(s) && s[0] != '0'
  }

  function Digit(n: nat): (c: char)
    requires n < 10
    ensures IsDigit(c) && Value(c) == n
  {
    n as char + '0'
  }

  function Value(c: char): nat
    requires IsDigit(c)
  {
    c as int - '0' as int
  }

  function ToText(n: nat): (s: string)
    ensures s != "" && AllDigits(s) && (n > 0 ==> s[0] != '0')
  {
    if n < 10 then [Digit(n)] else ToText(n / 10) + [Digit(n % 10)]
  }

  function FromText(s: string): nat
    requires AllDigits(s)
  {
    if s == "" then 0 else FromText(s[..|s| - 1]) * 10 + Value(s[|s| - 1])
  }

  lemma {:induction false} ReadPrinted(n: nat)
    ensures FromText(ToText(n)) == n
  {
    if n < 10 {
      assert ToText(n)[..0] == "";
    } else {
      ReadPrinted(n / 10);
      assert ToText(n)[..|ToText(n)| - 1] == ToText(n / 10);
    }
  }

  lemma {:induction false} PrintRead(s: string)
    requires Canonical(s)
    ensures FromText(s) > 0 && ToText(FromText(s)) == s
  {
    var front, last := s[..|s| - 1], Value(s[|s| - 1]);
    if front == "" {
      assert s == [s[0]] && FromText(s) == last;
    } else {
      PrintRead(front);
      assert FromText(s) == FromText(front) * 10 + last;
      assert FromText(s) / 10 == FromText(front) && FromText(s) % 10 == last;
      assert s == front + [s[|s| - 1]];
    }
  }

  /** Writing two more digits multiplies by a hundred and adds. */
  lemma TwoMoreDigits(s: string, a: char, b: char)
    requires AllDigits(s) && IsDigit(a) && IsDigit(b)
    ensures FromText(s + [a, b]) == FromText(s) * 100 + Value(a) * 10 + Value(b)
  {
    OneMoreDigit(s, a);
    OneMoreDigit(s + [a], b);
    assert s + [a] + [b] == s + [a, b];
    hide FromText, Value;
  }

  lemma OneMoreDigit(s: string, a: char)
    requires AllDigits(s) && IsDigit(a)
    ensures FromText(s + [a]) == FromText(s) * 10 + Value(a)
  {
    assert (s + [a])[..|s|] == s;
  }

  // ----- formatMinorAmount -----

  function PadStart(s: string, length: nat): string
    decreases length - |s|
  {
    if |s| >= length then s else PadStart("0" + s, length)
  }

  /** The replacement with /\B(?=(\d{3})+(?!\d))/: a comma before every inner digit with a multiple of three digits left. */
  function GroupFrom(s: string, i: nat): string
    requires i <= |s|
    decreases |s| - i
  {
    if i == |s| then ""
    else (if i > 0 && (|s| - i) % 3 == 0 then "," else "") + [s[i]] + GroupFrom(s, i + 1)
  }

  function Printed(amount: nat): string {
    GroupFrom(ToText(amount / 100), 0) + "." + PadStart(ToText(amount % 100), 2)
  }

  function FormatMinorAmount(value: string, currency: string): string
    requires AllDigits(value)
  {
    currency + " " + Printed(FromText(value))
  }

  // ----- majorToMinor -----

  /** What String.prototype.trim removes. */
  predicate Blank(c: char) {
    var u := c as int;
    || 0x09 <= u <= 0x0D || u == 0x20 || u == 0xA0 || u == 0x1680 || 0x2000 <= u <= 0x200A
    || u == 0x2028 || u == 0x2029 || u == 0x202F || u == 0x205F || u == 0x3000 || u == 0xFEFF
  }

  function Trim(s: string): string
    decreases |s|
  {
    if s != "" && Blank(s[0]) then Trim(s[1..])
    else if s != "" && Blank(s[|s| - 1]) then Trim(s[..|s| - 1])
    else s
  }

  function WithoutCommas(s: string): string {
    if s == "" then "" else (if s[0] == ',' then "" else [s[0]]) + WithoutCommas(s[1..])
  }

  /** Where the first dot is, or the length. */
  function DotIn(s: string): (i: nat)
    ensures i <= |s| && '.' !in s[..i] && (i < |s| ==> s[i] == '.')
  {
    if s == "" || s[0] == '.' then 0 else 1 + DotIn(s[1..])
  }

  /** /^\d+(\.\d{1,2})?$/ */
  predicate Plain(s: string) {
    var i := DotIn(s);
    && i > 0 && AllDigits(s[..i])
    && (i < |s| ==> 1 <= |s[i + 1..]| <= 2 && AllDigits(s[i + 1..]))
  }

  function PadEnd(s: string, length: nat): string
    decreases length - |s|
  {
    if |s| >= length then s else PadEnd(s + "0", length)
  }

  /** The replacement with /^0+(?=\d)/. */
  function StripZeros(s: string): string {
    if |s| > 1 && s[0] == '0' then StripZeros(s[1..]) else s
  }

  function MajorToMinor(value: string): Option<string> {
    var normalized := WithoutCommas(Trim(value));
    if !Plain(normalized) then None
    else
      var i := DotIn(normalized);
      var whole, fraction := normalized[..i], if i < |normalized| then normalized[i + 1..] else "";
      PadEndDigits(fraction, 2);
      StripKeepsValue(whole + PadEnd(fraction, 2));
      var parsed := FromText(StripZeros(whole + PadEnd(fraction, 2)));
      if parsed > 0 then Some(ToText(parsed)) else None
  }

  lemma {:induction false} PadEndDigits(s: string, length: nat)
    requires AllDigits(s)
    ensures AllDigits(PadEnd(s, length))
    decreases length - |s|
  {
    if |s| < length {
      PadEndDigits(s + "0", length);
    }
  }

  lemma {:induction false} LeadingZero(s: string)
    requires AllDigits(s)
    ensures FromText("0" + s) == FromText(s)
  {
    if s == "" {
      assert "0"[..0] == "";
    } else {
      var front := s[..|s| - 1];
      LeadingZero(front);
      assert ("0" + s)[..|s|] == "0" + front;
    }
  }

  lemma {:induction false} StripKeepsValue(s: string)
    requires AllDigits(s)
    ensures AllDigits(StripZeros(s)) && FromText(StripZeros(s)) == FromText(s)
  {
    if |s| > 1 && s[0] == '0' {
      StripKeepsValue(s[1..]);
      LeadingZero(s[1..]);
      assert "0" + s[1..] == s;
    }
  }

  // ----- What it reads -----

  /** The number of minor units that a plain text means. */
  function Meaning(s: string): nat
    requires Plain(s)
  {
    var i := DotIn(s);
    FromText(s[..i]) * 100 +
    if i == |s| then 0
    else if |s| == i + 2 then Value(s[i + 1]) * 10
    else Value(s[i + 1]) * 10 + Value(s[i + 2])
  }

  /** majorToMinor answers exactly the plain texts of a positive amount, with that amount in canonical form. */
  lemma MajorToMinorReadsMeaning(value: string)
    ensures var normalized := WithoutCommas(Trim(value));
            MajorToMinor(value) ==
            if Plain(normalized) && Meaning(normalized) > 0 then Some(ToText(Meaning(normalized))) else None
  {
    var s := WithoutCommas(Trim(value));
    hide Trim, WithoutCommas, ToText, FromText, DotIn;
    if Plain(s) {
      var i := DotIn(s);
      var whole, fraction := s[..i], if i < |s| then s[i + 1..] else "";
      PadEndDigits(fraction, 2);
      var padded := PadEnd(fraction, 2);
      StripKeepsValue(whole + padded);
      PadEndIsTwo(fraction);
      TwoMoreDigits(whole, padded[0], padded[1]);
      assert padded == [padded[0], padded[1]];
    }
  }

  lemma PadEndIsTwo(s: string)
    requires |s| <= 2
    ensures PadEnd(s, 2) == if |s| == 0 then "00" else if |s| == 1 then s + "0" else s
  {
    if |s| == 0 {
      assert PadEnd("", 2) == PadEnd("0", 2) == PadEnd("00", 2);
    }
  }

  // ----- The round trip -----

  lemma {:induction false} CommasJoin(a: string, b: string)
    ensures WithoutCommas(a + b) == WithoutCommas(a) + WithoutCommas(b)
  {
    if a == "" {
      assert a + b == b;
    } else {
      var head := if a[0] == ',' then "" else [a[0]];
      assert (a + b)[0] == a[0] && (a + b)[1..] == a[1..] + b;
      calc {
        WithoutCommas(a + b);
        head + WithoutCommas(a[1..] + b);
        { CommasJoin(a[1..], b); }
        head + (WithoutCommas(a[1..]) + WithoutCommas(b));
        WithoutCommas(a) + WithoutCommas(b);
      }
    }
  }

  lemma {:induction false} NoCommas(s: string)
    requires ',' !in s
    ensures WithoutCommas(s) == s
  {
    if s != "" {
      NoCommas(s[1..]);
    }
  }

  lemma {:induction false} GroupingIsUndone(s: string, i: nat)
    requires i <= |s| && AllDigits(s)
    ensures WithoutCommas(GroupFrom(s, i)) == s[i..]
    decreases |s| - i
  {
    if i < |s| {
      GroupingIsUndone(s, i + 1);
      var comma, rest := if i > 0 && (|s| - i) % 3 == 0 then "," else "", GroupFrom(s, i + 1);
      CommasJoin(comma + [s[i]], rest);
      CommasJoin(comma, [s[i]]);
      NoCommas([s[i]]);
      assert WithoutCommas(comma) == "";
      assert s[i..] == [s[i]] + s[i + 1..];
    }
  }

  /** Counted from the right, every fourth character and no other is a comma. */
  predicate CommaEveryFourth(g: string) {
    forall i | 0 <= i < |g| :: g[i] == ',' <==> (|g| - 1 - i) % 4 == 3
  }

  lemma Prepend(c: char, rest: string)
    requires CommaEveryFourth(rest) && (c == ',' <==> |rest| % 4 == 3)
    ensures CommaEveryFourth([c] + rest)
  {
    var whole := [c] + rest;
    forall i | 0 <= i < |whole| ensures whole[i] == ',' <==> (|whole| - 1 - i) % 4 == 3 {
      if i > 0 {
        assert whole[i] == rest[i - 1];
      }
    }
  }

  lemma Thirds(n: nat)
    ensures (n + n / 3) % 4 == n % 3
    ensures n % 3 == 2 ==> (n + 1) / 3 == n / 3 + 1 && (n + 1) % 3 == 0 && (n + n / 3 + 1) % 4 == 3
    ensures n % 3 != 2 ==> (n + 1) / 3 == n / 3 && (n + 1) % 3 != 0
  {
    var q, r := n / 3, n % 3;
    assert n + n / 3 == 4 * q + r;
  }

  /** One more digit goes in front, and a comma before it if that completes a group. */
  lemma PutDigit(c: char, rest: string, n: nat)
    requires IsDigit(c) && |rest| == n + n / 3 && CommaEveryFourth(rest)
    ensures CommaEveryFourth([c] + rest)
    ensures (n + 1) % 3 == 0 ==> CommaEveryFourth("," + [c] + rest) && |"," + [c] + rest| == n + 1 + (n + 1) / 3
    ensures (n + 1) % 3 != 0 ==> |[c] + rest| == n + 1 + (n + 1) / 3
  {
    hide CommaEveryFourth;
    Thirds(n);
    Prepend(c, rest);
    if n % 3 == 2 {
      Prepend(',', [c] + rest);
      assert [','] + ([c] + rest) == "," + [c] + rest;
    }
  }

  lemma {:induction false} GroupsFrom(s: string, i: nat)
    requires AllDigits(s) && 0 < i <= |s|
    ensures var n := |s| - i; |GroupFrom(s, i)| == n + n / 3
    ensures CommaEveryFourth(GroupFrom(s, i))
    decreases |s| - i
  {
    if i < |s| {
      hide CommaEveryFourth;
      GroupsFrom(s, i + 1);
      var n, rest := |s| - i - 1, GroupFrom(s, i + 1);
      PutDigit(s[i], rest, n);
      assert GroupFrom(s, i) == if (n + 1) % 3 == 0 then "," + [s[i]] + rest else "" + [s[i]] + rest;
      assert "" + [s[i]] + rest == [s[i]] + rest;
      hide GroupFrom;
    }
  }

  /** The digits are printed in groups of three, and no group is empty. */
  lemma GroupsOfThree(s: string)
    requires AllDigits(s) && s != ""
    ensures CommaEveryFourth(GroupFrom(s, 0)) && GroupFrom(s, 0)[0] == s[0]
  {
    GroupsFrom(s, 1);
  }

  lemma TwoDigits(n: nat)
    requires n < 100
    ensures PadStart(ToText(n), 2) == [Digit(n / 10), Digit(n % 10)]
  {
    if n < 10 {
      assert "0" + [Digit(n)] == [Digit(0), Digit(n)];
      assert PadStart("0" + [Digit(n)], 2) == "0" + [Digit(n)];
    } else {
      assert ToText(n / 10) == [Digit(n / 10)];
    }
  }

  lemma NothingToTrim(s: string)
    requires s != "" && !Blank(s[0]) && !Blank(s[|s| - 1])
    ensures Trim(s) == s
  {
  }

  lemma {:induction false} FirstDot(whole: string, fraction: string)
    requires '.' !in whole
    ensures DotIn(whole + "." + fraction) == |whole|
  {
    if whole == "" {
      assert (whole + "." + fraction)[0] == '.';
    } else {
      FirstDot(whole[1..], fraction);
      assert (whole + "." + fraction)[1..] == whole[1..] + "." + fraction;
    }
  }

  lemma Ungrouped(whole: string, cents: string)
    requires AllDigits(whole) && ',' !in cents
    ensures WithoutCommas(GroupFrom(whole, 0) + "." + cents) == whole + "." + cents
  {
    GroupingIsUndone(whole, 0);
    NoCommas(".");
    NoCommas(cents);
    hide GroupFrom, WithoutCommas;
    CommasJoin(GroupFrom(whole, 0), ".");
    CommasJoin(GroupFrom(whole, 0) + ".", cents);
  }

  lemma LastDigit(n: nat)
    ensures n % 100 % 10 == n % 10
  {
    var q, r := n / 100, n % 100;
    assert n == 10 * (10 * q + r / 10) + r % 10;
  }

  lemma PrintedNormalizes(amount: nat)
    ensures WithoutCommas(Trim(Printed(amount))) == ToText(amount / 100) + "." + [Digit(amount % 100 / 10), Digit(amount % 10)]
  {
    var whole, cents := ToText(amount / 100), [Digit(amount % 100 / 10), Digit(amount % 10)];
    TwoDigits(amount % 100);
    LastDigit(amount);
    assert Printed(amount) == GroupFrom(whole, 0) + "." + cents;
    assert Printed(amount)[0] == whole[0];
    NothingToTrim(Printed(amount));
    hide Trim, Blank, GroupFrom, ToText, WithoutCommas, Printed;
    Ungrouped(whole, cents);
  }

  lemma SplitCents(n: nat)
    ensures n / 100 * 100 + n % 100 / 10 * 10 + n % 10 == n
  {
    LastDigit(n);
  }

  lemma PlainMeaning(whole: string, a: char, b: char)
    requires whole != "" && AllDigits(whole) && IsDigit(a) && IsDigit(b)
    ensures Plain(whole + "." + [a, b])
    ensures Meaning(whole + "." + [a, b]) == FromText(whole) * 100 + Value(a) * 10 + Value(b)
  {
    FirstDot(whole, [a, b]);
    var s := whole + "." + [a, b];
    assert s[..|whole|] == whole && s[|whole| + 1..] == [a, b];
  }

  /** Whatever its size, a positive amount that was printed reads back as itself. */
  lemma PrintedReadsBack(value: string)
    requires Canonical(value)
    ensures MajorToMinor(Printed(FromText(value))) == Some(value)
  {
    var amount := FromText(value);
    PrintRead(value);
    PrintedNormalizes(amount);
    ReadPrinted(amount / 100);
    PlainMeaning(ToText(amount / 100), Digit(amount % 100 / 10), Digit(amount % 10));
    SplitCents(amount);
    hide Printed, Trim, WithoutCommas, Plain, Meaning, MajorToMinor, ToText, FromText;
    MajorToMinorReadsMeaning(Printed(amount));
  }

  /** The same for the whole text: the number is what follows the currency and its space. */
  lemma FormattedReadsBack(value: string, currency: string)
    requires Canonical(value)
    ensures var text := FormatMinorAmount(value, currency);
            |text| > |currency| && text[..|currency| + 1] == currency + " " && MajorToMinor(text[|currency| + 1..]) == Some(value)
  {
    PrintedReadsBack(value);
    assert FormatMinorAmount(value, currency)[|currency| + 1..] == Printed(FromText(value));
  }

  /** Zero prints, but does not read back: an amount must be positive. */
  lemma ZeroDoesNotReadBack()
    ensures MajorToMinor(Printed(0)) == None
  {
    PrintedNormalizes(0);
    FirstDot("0", "00");
    assert ToText(0) == "0";
    var normalized := "0" + "." + "00";
    assert WithoutCommas(Trim(Printed(0))) == normalized;
    assert normalized[..1] == "0" && normalized[2..] == "00" && "0"[..0] == "";
    MajorToMinorReadsMeaning(Printed(0));
  }

  /** Whatever the user typed and majorToMinor accepted, printing the result and reading it again changes nothing. */
  lemma ReadingIsStable(typed: string)
    requires MajorToMinor(typed).Some?
    ensures Canonical(MajorToMinor(typed).value)
    ensures MajorToMinor(Printed(FromText(MajorToMinor(typed).value))) == MajorToMinor(typed)
  {
    MajorToMinorReadsMeaning(typed);
    PrintedReadsBack(MajorToMinor(typed).value);
  }

  lemma {:induction false} NoDot(s: string)
    requires '.' !in s
    ensures DotIn(s) == |s|
  {
    if s != "" {
      NoDot(s[1..]);
    }
  }

  // ----- When dropping the commas keeps what was typed -----

  /** The whole units and the cents as typed, with the dot that separates them or without one. */
  function WholePart(typed: string): (whole: string)
    ensures '.' !in whole
  {
    typed[..DotIn(typed)]
  }

  function CentsPart(typed: string): string {
    if DotIn(typed) < |typed| then typed[DotIn(typed) + 1..] else ""
  }

  /** Digits and commas as formatMinorAmount would group them. */
  predicate Grouped(whole: string) {
    whole == "0" || (whole != "" && whole[0] != '0' && whole[0] != ',' && CommaEveryFourth(whole))
  }

  /** Commas stand only where they group the whole units. */
  predicate CommasGroup(typed: string) {
    Grouped(WholePart(typed)) && ',' !in CentsPart(typed)
  }

  /** The amount prints as what was typed, cents completed. */
  predicate PrintsAsTyped(typed: string, amount: nat) {
    Printed(amount) == WholePart(typed) + "." + PadEnd(CentsPart(typed), 2)
  }

  lemma {:induction false} DigitsOfGroups(g: string)
    requires CommaEveryFourth(g)
    ensures |WithoutCommas(g)| == |g| - |g| / 4
  {
    if g != "" {
      TailIsGrouped(g);
      DigitsOfGroups(g[1..]);
    }
  }

  lemma TailIsGrouped(g: string)
    requires CommaEveryFourth(g) && g != ""
    ensures CommaEveryFourth(g[1..]) && (g[0] == ',' <==> |g| % 4 == 0)
  {
    assert forall i | 0 <= i < |g| - 1 :: g[1..][i] == g[i + 1];
  }

  lemma HeadsAgree(g: string, h: string)
    requires g != "" && h != "" && WithoutCommas(g) == WithoutCommas(h) && (g[0] == ',' <==> h[0] == ',')
    ensures g[0] == h[0] && WithoutCommas(g[1..]) == WithoutCommas(h[1..])
  {
    if g[0] == ',' {
      assert WithoutCommas(g) == "" + WithoutCommas(g[1..]) && WithoutCommas(h) == "" + WithoutCommas(h[1..]);
    } else {
      var a, b := WithoutCommas(g[1..]), WithoutCommas(h[1..]);
      assert [g[0]] + a == [h[0]] + b;
      assert ([g[0]] + a)[1..] == a && ([h[0]] + b)[1..] == b && ([g[0]] + a)[0] == ([h[0]] + b)[0];
    }
  }

  lemma {:induction false} SameLengthSameGroups(g: string, h: string)
    requires CommaEveryFourth(g) && CommaEveryFourth(h) && |g| == |h| && WithoutCommas(g) == WithoutCommas(h)
    ensures g == h
  {
    if g != "" {
      TailIsGrouped(g);
      TailIsGrouped(h);
      hide CommaEveryFourth;
      HeadsAgree(g, h);
      SameLengthSameGroups(g[1..], h[1..]);
      assert g == [g[0]] + g[1..] && h == [h[0]] + h[1..];
    }
  }

  lemma NoLeadingComma(g: string)
    requires CommaEveryFourth(g) && g != "" && g[0] != ','
    ensures |g| % 4 != 0
  {
  }

  /** There is one way to group given digits. */
  lemma GroupingIsUnique(g: string, h: string)
    requires CommaEveryFourth(g) && CommaEveryFourth(h) && WithoutCommas(g) == WithoutCommas(h)
    requires g != "" && h != "" && g[0] != ',' && h[0] != ','
    ensures g == h
  {
    NoLeadingComma(g);
    NoLeadingComma(h);
    DigitsOfGroups(g);
    DigitsOfGroups(h);
    hide CommaEveryFourth, WithoutCommas;
    assert |g| == |h|;
    SameLengthSameGroups(g, h);
  }

  /** So grouping the digits again restores a text that was grouped. */
  lemma GroupedIsRestored(whole: string)
    requires Grouped(whole) && AllDigits(WithoutCommas(whole))
    ensures whole == GroupFrom(ToText(FromText(WithoutCommas(whole))), 0)
  {
    var digits := WithoutCommas(whole);
    if whole == "0" {
      assert digits == "0" && "0"[..0] == "";
      assert FromText(digits) == 0;
    } else {
      assert digits == [whole[0]] + WithoutCommas(whole[1..]);
      PrintRead(digits);
      GroupsOfThree(digits);
      GroupingIsUndone(digits, 0);
      hide FromText, ToText, GroupFrom, WithoutCommas;
      GroupingIsUnique(whole, GroupFrom(digits, 0));
    }
  }

  lemma {:induction false} CommasKeepOthers(s: string, c: char)
    requires c != ','
    ensures c in WithoutCommas(s) <==> c in s
  {
    if s != "" {
      CommasKeepOthers(s[1..], c);
    }
  }

  /** Commas are removed from each part, and the dot stays where it was between them. */
  lemma PartsNormalize(t: string)
    ensures WholePart(WithoutCommas(t)) == WithoutCommas(WholePart(t))
    ensures CentsPart(WithoutCommas(t)) == WithoutCommas(CentsPart(t))
  {
    var whole, cents := WholePart(t), CentsPart(t);
    CommasKeepOthers(whole, '.');
    if DotIn(t) == |t| {
      assert t == whole;
      NoDot(WithoutCommas(t));
    } else {
      assert t == whole + "." + cents;
      NoCommas(".");
      CommasJoin(whole + ".", cents);
      CommasJoin(whole, ".");
      FirstDot(WithoutCommas(whole), WithoutCommas(cents));
    }
  }

  /** What an accepted text is read as, in its two parts. */
  lemma ReadInParts(typed: string)
    requires MajorToMinor(typed).Some?
    ensures var t := Trim(typed); var whole, cents := WithoutCommas(WholePart(t)), PadEnd(WithoutCommas(CentsPart(t)), 2);
      && whole != "" && AllDigits(whole) && |cents| == 2 && AllDigits(cents)
      && FromText(MajorToMinor(typed).value) == FromText(whole) * 100 + Value(cents[0]) * 10 + Value(cents[1])
  {
    var t := Trim(typed);
    MajorToMinorReadsMeaning(typed);
    hide MajorToMinor, Trim, ToText, FromText;
    PartsNormalize(t);
    var s := WithoutCommas(t);
    hide WithoutCommas;
    ReadPrinted(Meaning(s));
    MeaningInParts(s);
  }

  lemma MeaningInParts(s: string)
    requires Plain(s)
    ensures var whole, cents := WholePart(s), PadEnd(CentsPart(s), 2);
      && whole != "" && AllDigits(whole) && |cents| == 2 && AllDigits(cents)
      && Meaning(s) == FromText(whole) * 100 + Value(cents[0]) * 10 + Value(cents[1])
  {
    hide FromText;
    PadEndIsTwo(CentsPart(s));
  }

  lemma PrintedParts(whole: string, a: char, b: char)
    requires whole != "" && AllDigits(whole) && IsDigit(a) && IsDigit(b)
    ensures Printed(FromText(whole) * 100 + Value(a) * 10 + Value(b)) == GroupFrom(ToText(FromText(whole)), 0) + "." + [a, b]
  {
    hide GroupFrom, ToText, FromText, AllDigits;
    PairPrints(a, b);
    PrintedOf(FromText(whole), Value(a) * 10 + Value(b));
    hide *;
  }

  lemma PairPrints(a: char, b: char)
    requires IsDigit(a) && IsDigit(b)
    ensures PadStart(ToText(Value(a) * 10 + Value(b)), 2) == [a, b]
  {
    hide ToText, PadStart;
    var cents := Value(a) * 10 + Value(b);
    assert cents / 10 == Value(a) && cents % 10 == Value(b);
    TwoDigits(cents);
    assert Digit(Value(a)) == a && Digit(Value(b)) == b;
  }

  lemma PrintedOf(n: nat, cents: nat)
    requires cents < 100
    ensures Printed(n * 100 + cents) == GroupFrom(ToText(n), 0) + "." + PadStart(ToText(cents), 2)
  {
    hide ToText, GroupFrom, PadStart;
    CentsApart(n, cents);
  }

  lemma CentsApart(n: nat, cents: nat)
    requires cents < 100
    ensures (n * 100 + cents) / 100 == n && (n * 100 + cents) % 100 == cents
  {
  }

  /**
   For every text that is accepted: the amount it is read as prints as what was typed if and only if commas stand
   just where they group the whole units in threes, without leading zeros.
   */
  lemma PrintsAsTypedIffGrouped(typed: string)
    requires MajorToMinor(typed).Some?
    ensures PrintsAsTyped(Trim(typed), FromText(MajorToMinor(typed).value)) <==> CommasGroup(Trim(typed))
  {
    var t := Trim(typed);
    ReadInParts(typed);
    hide MajorToMinor, Trim;
    PartsIff(t, FromText(MajorToMinor(typed).value));
  }

  lemma PartsIff(t: string, amount: nat)
    requires var whole, cents := WithoutCommas(WholePart(t)), PadEnd(WithoutCommas(CentsPart(t)), 2);
      && whole != "" && AllDigits(whole) && |cents| == 2 && AllDigits(cents)
      && amount == FromText(whole) * 100 + Value(cents[0]) * 10 + Value(cents[1])
    ensures PrintsAsTyped(t, amount) <==> CommasGroup(t)
  {
    var whole, cents := WithoutCommas(WholePart(t)), PadEnd(WithoutCommas(CentsPart(t)), 2);
    PrintedParts(whole, cents[0], cents[1]);
    assert cents == [cents[0], cents[1]];
    hide FromText, ToText, Printed, GroupFrom, PadEnd, WithoutCommas, CommaEveryFourth;
    if CommasGroup(t) {
      hide WholePart, CentsPart;
      GroupedIsRestored(WholePart(t));
      NoCommas(CentsPart(t));
    } else if PrintsAsTyped(t, amount) {
      PrintedIsGrouped(WholePart(t), CentsPart(t), FromText(whole), cents);
    }
  }

  lemma PrintedIsGrouped(whole: string, fraction: string, n: nat, cents: string)
    requires '.' !in whole && |cents| == 2 && AllDigits(cents)
    requires GroupFrom(ToText(n), 0) + "." + cents == whole + "." + PadEnd(fraction, 2)
    ensures Grouped(whole) && ',' !in fraction
  {
    var grouped, padded := GroupFrom(ToText(n), 0), PadEnd(fraction, 2);
    GroupingIsUndone(ToText(n), 0);
    CommasKeepOthers(grouped, '.');
    SameBeforeDot(grouped, cents, whole, padded);
    GroupsOfThree(ToText(n));
    PadEndKeeps(fraction, 2);
    assert n == 0 ==> grouped == "0";
    hide CommaEveryFourth, GroupFrom, WithoutCommas, PadEnd;
  }

  lemma SameBeforeDot(a: string, b: string, c: string, d: string)
    requires '.' !in a && '.' !in c && a + "." + b == c + "." + d
    ensures a == c && b == d
  {
    FirstDot(a, b);
    FirstDot(c, d);
    assert (a + "." + b)[..|a|] == a && (c + "." + d)[..|c|] == c;
    assert (a + "." + b)[|a| + 1..] == b && (c + "." + d)[|c| + 1..] == d;
  }

  lemma {:induction false} PadEndKeeps(s: string, length: nat)
    ensures s <= PadEnd(s, length)
    decreases length - |s|
  {
    if |s| < length {
      PadEndKeeps(s + "0", length);
    }
  }

  /** The text spells the amount: without any comma, or with commas as the amount is printed. */
  predicate Spells(typed: string, amount: nat) {
    if ',' !in typed then Plain(typed) && Meaning(typed) == amount else PrintsAsTyped(typed, amount)
  }

  /** Dropping commas keeps what was typed if and only if there were none or they group the whole units. */
  lemma ReadAsTypedIffCommasGroup(typed: string)
    requires MajorToMinor(typed).Some?
    ensures Spells(Trim(typed), FromText(MajorToMinor(typed).value)) <==> ',' !in Trim(typed) || CommasGroup(Trim(typed))
  {
    var t := Trim(typed);
    PrintsAsTypedIffGrouped(typed);
    if ',' !in t {
      NoCommas(t);
      MajorToMinorReadsMeaning(typed);
      ReadPrinted(Meaning(t));
    }
  }

  lemma CommaVanishes(whole: string, rest: string)
    requires whole != "" && rest != "" && AllDigits(whole) && AllDigits(rest)
    ensures WithoutCommas(Trim(whole + "," + rest)) == whole + rest
  {
    assert WithoutCommas(",") == "" by {
      assert ","[1..] == "";
    }
    NothingToTrim(whole + "," + rest);
    hide Trim, Blank, WithoutCommas;
    assert ',' !in whole && ',' !in rest;
    hide AllDigits;
    NoCommas(whole);
    NoCommas(rest);
    CommasJoin(whole, ",");
    CommasJoin(whole + ",", rest);
    assert WithoutCommas(whole + ",") == whole;
  }

  lemma DecimalCommaGroupsNothing(whole: string, rest: string)
    requires whole != "" && AllDigits(whole) && AllDigits(rest) && |rest| == 2
    ensures !CommasGroup(Trim(whole + "," + rest))
  {
    var typed := whole + "," + rest;
    NothingToTrim(typed);
    NoDot(typed);
    assert typed[|whole|] == ',' && |typed| - 1 - |whole| == 2;
    hide Trim, DotIn;
  }

  /** A decimal comma groups nothing; it is dropped like any other, and the amount is a hundred times what was meant. */
  lemma DecimalCommaIsDropped(whole: string, a: char, b: char)
    requires Canonical(whole) && IsDigit(a) && IsDigit(b)
    ensures MajorToMinor(whole + "," + [a, b]) == Some(whole + [a, b] + "00")
    ensures !CommasGroup(Trim(whole + "," + [a, b]))
  {
    DecimalCommaGroupsNothing(whole, [a, b]);
    var digits := whole + [a, b];
    CommaVanishes(whole, [a, b]);
    NoDot(digits);
    assert digits[..|digits|] == digits;
    TwoMoreDigits(digits, '0', '0');
    assert digits + ['0', '0'] == digits + "00";
    PrintRead(digits + "00");
    hide Trim, WithoutCommas, MajorToMinor, ToText, FromText;
    MajorToMinorReadsMeaning(whole + "," + [a, b]);
  }

  // ----- Which texts are amounts, digit by digit -----

  predicate AllBlank(s: string) {
    forall i | 0 <= i < |s| :: Blank(s[i])
  }

  lemma {:induction false} TrimBlanks(left: string, s: string, right: string)
    requires AllBlank(left) && AllBlank(right) && s != "" && !Blank(s[0]) && !Blank(s[|s| - 1])
    ensures Trim(left + s + right) == s
    decreases |left| + |right|
  {
    hide Blank;
    var whole := left + s + right;
    if left != "" {
      assert whole[1..] == left[1..] + s + right && whole[0] == left[0];
      TrimBlanks(left[1..], s, right);
    } else if right != "" {
      assert whole[0] == s[0] && whole[..|whole| - 1] == left + s + right[..|right| - 1];
      assert whole[|whole| - 1] == right[|right| - 1];
      TrimBlanks(left, s, right[..|right| - 1]);
    } else {
      assert whole == s;
    }
  }

  /** Blanks around the text do not matter. */
  lemma BlanksAround(left: string, s: string, right: string)
    requires AllBlank(left) && AllBlank(right) && s != "" && !Blank(s[0]) && !Blank(s[|s| - 1])
    ensures MajorToMinor(left + s + right) == MajorToMinor(s)
  {
    TrimBlanks(left, s, right);
    NothingToTrim(s);
    hide *;
    MajorToMinorReadsMeaning(left + s + right);
    MajorToMinorReadsMeaning(s);
  }

  /** Whole units, and after a dot at most two digits of a unit; without a dot there are none. */
  predicate Splits(s: string, whole: string, cents: string) {
    && whole != "" && AllDigits(whole) && AllDigits(cents) && |cents| <= 2
    && s == if cents == "" then whole else whole + "." + cents
  }

  predicate AllZeros(s: string) {
    forall i | 0 <= i < |s| :: s[i] == '0'
  }

  /** `minor` is the digits of the whole units and of the cents, completed to two, without the zeros in front. */
  ghost predicate Shifts(whole: string, cents: string, minor: string)
    requires |cents| <= 2
  {
    Canonical(minor) && exists zeros: string :: AllZeros(zeros) && zeros + minor == whole + cents + "00"[|cents|..]
  }

  lemma PlainSplits(s: string)
    requires Plain(s)
    ensures Splits(s, WholePart(s), CentsPart(s))
  {
    if DotIn(s) < |s| {
      assert s == s[..DotIn(s)] + "." + s[DotIn(s) + 1..];
    }
  }

  lemma SplitIsPlain(s: string, whole: string, cents: string)
    requires Splits(s, whole, cents)
    ensures Plain(s) && WholePart(s) == whole && CentsPart(s) == cents
  {
    if cents == "" {
      NoDot(whole);
    } else {
      FirstDot(whole, cents);
    }
  }

  lemma {:induction false} LeadingZeros(zeros: string, s: string)
    requires AllZeros(zeros) && AllDigits(s)
    ensures AllDigits(zeros + s) && FromText(zeros + s) == FromText(s)
  {
    if zeros == "" {
      assert zeros + s == s;
    } else {
      LeadingZeros(zeros[1..], s);
      LeadingZero(zeros[1..] + s);
      assert zeros + s == "0" + (zeros[1..] + s);
    }
  }

  lemma {:induction false} StripsZeros(s: string) returns (zeros: string)
    requires AllDigits(s)
    ensures AllZeros(zeros) && zeros + StripZeros(s) == s
    ensures AllDigits(StripZeros(s)) && (s != "" ==> StripZeros(s) != "" && (|StripZeros(s)| > 1 ==> StripZeros(s)[0] != '0'))
  {
    if |s| > 1 && s[0] == '0' {
      zeros := StripsZeros(s[1..]);
      zeros := "0" + zeros;
      assert s == "0" + s[1..];
    } else {
      zeros := "";
    }
  }

  lemma ZeroText()
    ensures FromText("0") == 0
  {
    assert "0"[..0] == "";
  }

  lemma MeaningOfParts(s: string, whole: string, cents: string)
    requires Splits(s, whole, cents)
    ensures Plain(s) && AllDigits(whole + cents + "00"[|cents|..]) && Meaning(s) == FromText(whole + cents + "00"[|cents|..])
  {
    SplitIsPlain(s, whole, cents);
    var padded := cents + "00"[|cents|..];
    TwoMoreDigits(whole, padded[0], padded[1]);
    assert whole + [padded[0], padded[1]] == whole + cents + "00"[|cents|..];
  }

  /**
   Reading, without numbers: an amount is read exactly from digits with at most two of them after one dot, blanks around and
   commas taken away, and what is read is those digits, completed to two cents, from the first that is not zero.
   */
  lemma ReadsExactly(typed: string, minor: string)
    ensures MajorToMinor(typed) == Some(minor) <==>
            exists whole, cents :: Splits(WithoutCommas(Trim(typed)), whole, cents) && Shifts(whole, cents, minor)
  {
    var s := WithoutCommas(Trim(typed));
    MajorToMinorReadsMeaning(typed);
    hide MajorToMinor, WithoutCommas, Trim, ToText, FromText;
    if MajorToMinor(typed) == Some(minor) {
      PlainSplits(s);
      var whole, cents := WholePart(s), CentsPart(s);
      MeaningOfParts(s, whole, cents);
      var digits := whole + cents + "00"[|cents|..];
      var zeros := StripsZeros(digits);
      PositiveIsStripped(digits, zeros);
      assert Splits(s, whole, cents) && Shifts(whole, cents, minor);
    }
    if whole, cents :| Splits(s, whole, cents) && Shifts(whole, cents, minor) {
      MeaningOfParts(s, whole, cents);
      var zeros: string :| AllZeros(zeros) && zeros + minor == whole + cents + "00"[|cents|..];
      LeadingZeros(zeros, minor);
      PrintRead(minor);
    }
  }

  lemma PositiveIsStripped(digits: string, zeros: string)
    requires AllDigits(digits) && digits != "" && FromText(digits) > 0
    requires AllZeros(zeros) && AllDigits(StripZeros(digits)) && zeros + StripZeros(digits) == digits
    requires StripZeros(digits) != "" && (|StripZeros(digits)| > 1 ==> StripZeros(digits)[0] != '0')
    ensures Canonical(StripZeros(digits)) && ToText(FromText(digits)) == StripZeros(digits)
  {
    var m := StripZeros(digits);
    hide StripZeros, ToText, FromText;
    LeadingZeros(zeros, m);
    if m[0] == '0' {
      assert m == "0";
      ZeroText();
    }
    PrintRead(m);
  }
}
