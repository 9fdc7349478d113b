/** The text of a register sequence target, `FC:address:quantity`, printed and parsed.

    The parser reads plain decimal digits.  Python's `int` also accepts signs, spaces, underscores and
    other digits, but the comparison with the canonical text that follows it refuses all of those. */
module Targets {
  import opened Options

  datatype Parts = Parts(code: nat, address: nat, quantity: nat)

  function Digit(d: nat): char
    requires d < 10
  {
    "0123456789"[d]
  }

  predicate IsDigit(c: char) {
    '0' <= c <= '9'
  }

  function DigitValue(c: char): nat
    requires IsDigit(c)
  {
    c as int - '0' as int
  }

  function Decimal(n: nat): (text: string)
    ensures text != [] && forall i | 0 <= i < |text| :: IsDigit(text[i])
  {
    if n < 10 then [Digit(n)] else Decimal(n / 10) + [Digit(n % 10)]
  }

  /** At least two digits, as the function code is printed. */
  function Padded(n: nat): (text: string)
    ensures text != [] && forall i | 0 <= i < |text| :: IsDigit(text[i])
  {
    if n < 10 then "0" + Decimal(n) else Decimal(n)
  }

  function Value(text: string): nat
    requires forall i | 0 <= i < |text| :: IsDigit(text[i])
  {
    if text == [] then 0 else 10 * Value(text[..|text| - 1]) + DigitValue(text[|text| - 1])
  }

  function ParseNumber(text: string): Option<nat> {
    if text != [] && (forall i | 0 <= i < |text| :: IsDigit(text[i])) then Some(Value(text)) else None
  }

  function SplitAtColons(text: string): seq<string> {
    if text == [] then [[]]
    else
      var rest := SplitAtColons(text[1..]);
      if text[0] == ':' || rest == [] then [[]] + rest
      else [[text[0]] + rest[0]] + rest[1..]
  }

  function Print(p: Parts): string {
    Padded(p.code) + ":" + Decimal(p.address) + ":" + Decimal(p.quantity)
  }

  /** How many registers the reference map has for a function. */
  function RegisterCount(code: nat): nat {
    if code == 4 then 3 else 2
  }

  predicate Supported(p: Parts) {
    && p.code in {3, 4, 6, 16}
    && p.quantity >= 1
    && p.address + p.quantity <= RegisterCount(p.code)
    && (p.code == 6 ==> p.quantity == 1)
  }

  function TargetParts(text: string): Option<Parts> {
    var parts := SplitAtColons(text);
    if |parts| != 3 then None
    else
      var f, a, q := ParseNumber(parts[0]), ParseNumber(parts[1]), ParseNumber(parts[2]);
      if f.None? || a.None? || q.None? then None
      else
        var p := Parts(f.value, a.value, q.value);
        if Supported(p) && text == Print(p) then Some(p) else None
  }

  // ---------------------------------------------------------------------------------------------

  lemma {:induction false} ValueOfDecimal(n: nat)
    ensures Value(Decimal(n)) == n
  {
    var text := Decimal(n);
    if n >= 10 {
      ValueOfDecimal(n / 10);
      assert text[..|text| - 1] == Decimal(n / 10);
      assert Value(text) == 10 * Value(Decimal(n / 10)) + DigitValue(Digit(n % 10));
    } else {
      assert text[..0] == [];
    }
  }

  lemma ValueOfPadded(n: nat)
    ensures Value(Padded(n)) == n
  {
    ValueOfDecimal(n);
    if n < 10 {
      assert Padded(n) == ['0', Digit(n)];
      assert ['0', Digit(n)][..1] == ['0'];
      assert ['0'][..0] == [];
    }
  }

  lemma {:induction false} SplitWord(text: string, rest: string)
    requires forall i | 0 <= i < |text| :: text[i] != ':'
    ensures SplitAtColons(text + [':'] + rest) == [text] + SplitAtColons(rest)
  {
    var whole := text + [':'] + rest;
    if text == [] {
      assert whole[1..] == rest;
    } else {
      SplitWord(text[1..], rest);
      assert whole[1..] == text[1..] + [':'] + rest;
      assert [text[0]] + text[1..] == text;
    }
  }

  lemma {:induction false} SplitLastWord(text: string)
    requires forall i | 0 <= i < |text| :: text[i] != ':'
    ensures SplitAtColons(text) == [text]
  {
    if text != [] {
      SplitLastWord(text[1..]);
      assert [text[0]] + text[1..] == text;
    }
  }

  lemma SplitPrinted(p: Parts)
    ensures SplitAtColons(Print(p)) == [Padded(p.code), Decimal(p.address), Decimal(p.quantity)]
  {
    var tail := Decimal(p.address) + ":" + Decimal(p.quantity);
    assert Print(p) == Padded(p.code) + [':'] + tail;
    SplitWord(Padded(p.code), tail);
    SplitWord(Decimal(p.address), Decimal(p.quantity));
    SplitLastWord(Decimal(p.quantity));
  }

  /** A text is accepted exactly when it is the printed form of a supported range, and it is read back
      as that range. */
  lemma TargetRoundTrip(text: string, p: Parts)
    ensures TargetParts(text) == Some(p) <==> Supported(p) && text == Print(p)
  {
    if Supported(p) && text == Print(p) {
      SplitPrinted(p);
      ValueOfPadded(p.code);
      ValueOfDecimal(p.address);
      ValueOfDecimal(p.quantity);
    }
  }

  /** Different ranges never share a sequence: even unsupported ones print differently. */
  lemma PrintIsInjective(p: Parts, q: Parts)
    requires Print(p) == Print(q)
    ensures p == q
  {
    SplitPrinted(p);
    SplitPrinted(q);
    ValueOfPadded(p.code);
    ValueOfPadded(q.code);
    ValueOfDecimal(p.address);
    ValueOfDecimal(q.address);
    ValueOfDecimal(p.quantity);
    ValueOfDecimal(q.quantity);
  }

  /** What can be named: reads and writes of the two registers, and reads of the three inputs. */
  const TARGETS: set<Parts> := {
    Parts(3, 0, 1), Parts(3, 0, 2), Parts(3, 1, 1),
    Parts(4, 0, 1), Parts(4, 0, 2), Parts(4, 0, 3), Parts(4, 1, 1), Parts(4, 1, 2), Parts(4, 2, 1),
    Parts(6, 0, 1), Parts(6, 1, 1),
    Parts(16, 0, 1), Parts(16, 0, 2), Parts(16, 1, 1) }

  /** The code with two digits, the other numbers with one. */
  function Text(p: Parts): string
    requires p.code < 100 && p.address < 10 && p.quantity < 10
  {
    ['0' + (p.code / 10) as char, '0' + (p.code % 10) as char, ':', '0' + p.address as char, ':', '0' + p.quantity as char]
  }

  lemma PrintOfTarget(p: Parts)
    requires p in TARGETS
    ensures Print(p) == Text(p)
  {
    assert Decimal(1) == "1";
    assert Decimal(16) == Decimal(1) + "6";
  }

  lemma SupportedAreTargets(p: Parts)
    ensures Supported(p) <==> p in TARGETS
  {
  }

  /** The texts of these fourteen and no others are accepted. */
  lemma AcceptedTexts(text: string, p: Parts)
    ensures TargetParts(text) == Some(p) <==> p in TARGETS && text == Text(p)
  {
    SupportedAreTargets(p);
    TargetRoundTrip(text, p);
    if p in TARGETS {
      PrintOfTarget(p);
    }
  }
}
