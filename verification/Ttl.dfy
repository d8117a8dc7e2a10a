// TokenService.parseTtl: "15m", "7d", "900s" or a raw number of seconds; anything else is 900.
module Ttl {
  import opened Decimal

  predicate IsSpace(c: char) {
    '\t' <= c <= '\r' || c == ' ' || c == '\U{00A0}' || c == '\U{1680}' || '\U{2000}' <= c <= '\U{200A}'
    || c == '\U{2028}' || c == '\U{2029}' || c == '\U{202F}' || c == '\U{205F}' || c == '\U{3000}' || c == '\U{FEFF}'
  }

  predicate AllSpace(s: string) { forall i :: 0 <= i < |s| ==> IsSpace(s[i]) }

  function TrimStart(s: string): string {
    if s != "" && IsSpace(s[0]) then TrimStart(s[1..]) else s
  }

  function TrimEnd(s: string): string {
    if s != "" && IsSpace(s[|s| - 1]) then TrimEnd(s[..|s| - 1]) else s
  }

  function Trim(s: string): string { TrimEnd(TrimStart(s)) }

  predicate IsUnit(c: char) { c == 's' || c == 'm' || c == 'h' || c == 'd' }

  function UnitSeconds(c: char): nat
    requires IsUnit(c)
  {
    if c == 'm' then 60 else if c == 'h' then 3600 else if c == 'd' then 86400 else 1
  }

  function ParseTtl(value: string): nat {
    var t := Trim(value);
    if t != "" && AllDigits(t) then ParseInt(t)
    else if |t| > 1 && AllDigits(t[..|t| - 1]) && IsUnit(t[|t| - 1]) then
      ParseInt(t[..|t| - 1]) * UnitSeconds(t[|t| - 1])
    else 900
  }

  lemma {:induction false} TrimStartDrops(before: string, s: string)
    requires AllSpace(before) && (s == "" || !IsSpace(s[0]))
    ensures TrimStart(before + s) == s
  {
    if before == "" {
      assert before + s == s;
    } else {
      TrimStartDrops(before[1..], s);
      assert (before + s)[1..] == before[1..] + s;
    }
  }

  lemma {:induction false} TrimEndDrops(s: string, after: string)
    requires AllSpace(after) && (s == "" || !IsSpace(s[|s| - 1]))
    ensures TrimEnd(s + after) == s
  {
    if after == "" {
      assert s + after == s;
    } else {
      var rest := after[..|after| - 1];
      TrimEndDrops(s, rest);
      assert (s + after)[..|s + after| - 1] == s + rest;
    }
  }

  lemma TrimDrops(before: string, s: string, after: string)
    requires AllSpace(before) && AllSpace(after) && s != "" && !IsSpace(s[0]) && !IsSpace(s[|s| - 1])
    ensures Trim(before + s + after) == s
  {
    assert before + s + after == before + (s + after);
    TrimStartDrops(before, s + after);
    TrimEndDrops(s, after);
  }

  /** parseTtl inverts printing n with a unit, or bare, whatever white space surrounds it. */
  lemma TtlInvertsPrinting(n: nat, unit: char, before: string, after: string)
    requires IsUnit(unit) && AllSpace(before) && AllSpace(after)
    ensures ParseTtl(before + (Digits(n) + [unit]) + after) == n * UnitSeconds(unit)
    ensures ParseTtl(before + Digits(n) + after) == n
  {
    var bare := Digits(n);
    var printed := bare + [unit];
    assert !IsSpace(bare[0]) && !IsSpace(bare[|bare| - 1]);
    TrimDrops(before, printed, after);
    TrimDrops(before, bare, after);
    ParseDigits(n);
    assert printed[..|printed| - 1] == bare;
    assert !IsDigit(printed[|printed| - 1]);
  }

  /** A day reads as 24 hours, an hour as 60 minutes, a minute as 60 seconds, and seconds need no unit. */
  lemma UnitsScale(n: nat)
    ensures ParseTtl(Digits(n) + ['d']) == ParseTtl(Digits(24 * n) + ['h'])
    ensures ParseTtl(Digits(n) + ['h']) == ParseTtl(Digits(60 * n) + ['m'])
    ensures ParseTtl(Digits(n) + ['m']) == ParseTtl(Digits(60 * n) + ['s'])
    ensures ParseTtl(Digits(n) + ['s']) == ParseTtl(Digits(n)) == n
  {
    hide ParseTtl, Digits;
    Reads(n, 'd');
    Reads(24 * n, 'h');
    Reads(n, 'h');
    Reads(60 * n, 'm');
    Reads(n, 'm');
    Reads(60 * n, 's');
    Reads(n, 's');
  }

  lemma Reads(n: nat, unit: char)
    requires IsUnit(unit)
    ensures ParseTtl(Digits(n) + [unit]) == n * UnitSeconds(unit)
    ensures ParseTtl(Digits(n)) == n
  {
    TtlInvertsPrinting(n, unit, "", "");
    assert "" + (Digits(n) + [unit]) + "" == Digits(n) + [unit] && "" + Digits(n) + "" == Digits(n);
  }

  /** A number with any other unit, weeks say, is read as a quarter of an hour. */
  lemma UnknownUnitFallsBack(n: nat, unit: char)
    requires !IsUnit(unit) && !IsDigit(unit) && !IsSpace(unit)
    ensures ParseTtl(Digits(n) + [unit]) == 900
  {
    var printed := Digits(n) + [unit];
    assert !IsSpace(printed[0]);
    TrimDrops("", printed, "");
    assert "" + printed + "" == printed;
    assert !IsDigit(printed[|printed| - 1]);
  }
}
