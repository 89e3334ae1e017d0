/** The registry key of a grid cell, `getCellKey(page, row, col)` in
    src/midi/APCMiniMK2Manager.ts: the three coordinates written in decimal
    (as a JavaScript template literal writes an integer) joined by '-'. */
module CellKeys {

  function DigitChar(d: nat): (c: char)
    requires d < 10
    ensures '0' <= c <= '9'
  {
    "0123456789"[d]
  }

  /** Decimal digits of a natural number, without leading zeros. */
  function NatToDecimal(n: nat): (s: string)
    ensures |s| >= 1
    ensures n < 10 <==> |s| == 1
  {
    if n < 10 then [DigitChar(n)] else NatToDecimal(n / 10) + [DigitChar(n % 10)]
  }

  /** An integer as `${n}` renders it: a '-' sign, then the digits of |n|. */
  function IntToDecimal(n: int): (s: string)
    ensures |s| >= 1
  {
    if n < 0 then "-" + NatToDecimal(-n) else NatToDecimal(n)
  }

  /** `${page}-${row}-${col}` */
  function GetCellKey(page: int, row: int, col: int): (key: string)
    ensures |key| == |IntToDecimal(page)| + |IntToDecimal(row)| + |IntToDecimal(col)| + 2 >= 5
    ensures key[..|IntToDecimal(page)|] == IntToDecimal(page) && key[|IntToDecimal(page)|] == '-'
  {
    IntToDecimal(page) + "-" + IntToDecimal(row) + "-" + IntToDecimal(col)
  }

  predicate NoDash(s: string) {
    forall i :: 0 <= i < |s| ==> s[i] != '-'
  }

  lemma {:induction false} NatToDecimalInjective(m: nat, n: nat)
    requires NatToDecimal(m) == NatToDecimal(n)
    ensures m == n
  {
    var s := NatToDecimal(m);
    if m < 10 || n < 10 {
      assert m < 10 && n < 10;
      assert "0123456789"[m] == s[0] == "0123456789"[n];
    } else {
      assert NatToDecimal(m / 10) == s[..|s| - 1] == NatToDecimal(n / 10);
      NatToDecimalInjective(m / 10, n / 10);
      assert "0123456789"[m % 10] == s[|s| - 1] == "0123456789"[n % 10];
    }
  }

  /** Index of the first '-' of a string that has one. */
  function FirstDash(s: string): nat
    requires '-' in s
  {
    if s[0] == '-' then 0 else 1 + FirstDash(s[1..])
  }

  lemma {:induction false} FirstDashAfter(x: string, y: string)
    requires NoDash(x)
    ensures '-' in x + "-" + y && FirstDash(x + "-" + y) == |x|
  {
    var s := x + "-" + y;
    assert s[|x|] == '-';
    if |x| > 0 {
      assert s[0] == x[0] != '-';
      assert s[1..] == x[1..] + "-" + y;
      FirstDashAfter(x[1..], y);
    }
  }

  /** Splitting at the first '-' is unambiguous when the leading part has no '-'. */
  lemma SplitAtDash(x: string, y: string, x': string, y': string)
    requires NoDash(x) && NoDash(x')
    requires x + "-" + y == x' + "-" + y'
    ensures x == x' && y == y'
  {
    var s := x + "-" + y;
    FirstDashAfter(x, y);
    FirstDashAfter(x', y');
    assert x == s[..|x|] == x';
    assert y == s[|x| + 1..] == y';
  }

  lemma {:induction false} DigitsHaveNoDash(n: nat)
    ensures NoDash(NatToDecimal(n))
  {
    if n >= 10 {
      DigitsHaveNoDash(n / 10);
    }
  }

  /** A sign ("" or "-") and a dash-free non-empty word, followed by '-',
      can be read back from the front of a string. */
  lemma SplitSigned(p: string, x: string, y: string, p': string, x': string, y': string)
    requires p == "" || p == "-"
    requires p' == "" || p' == "-"
    requires |x| >= 1 && |x'| >= 1 && NoDash(x) && NoDash(x')
    requires p + x + "-" + y == p' + x' + "-" + y'
    ensures p == p' && x == x' && y == y'
  {
    var s := p + x + "-" + y;
    assert s[0] == (if p == "" then x[0] else '-');
    assert s[0] == (if p' == "" then x'[0] else '-');
    assert p == p';
    assert x + "-" + y == s[|p|..] == x' + "-" + y';
    SplitAtDash(x, y, x', y');
  }

  /** The decimal rendering of an integer, followed by '-', can be read back. */
  lemma IntPrefixUnique(a: int, y: string, b: int, y': string)
    requires IntToDecimal(a) + "-" + y == IntToDecimal(b) + "-" + y'
    ensures a == b && y == y'
  {
    var m: nat := if a < 0 then -a else a;
    var n: nat := if b < 0 then -b else b;
    var x, x' := NatToDecimal(m), NatToDecimal(n);
    var p: string := if a < 0 then "-" else "";
    var p': string := if b < 0 then "-" else "";
    assert IntToDecimal(a) == p + x;
    assert IntToDecimal(b) == p' + x';
    DigitsHaveNoDash(m);
    DigitsHaveNoDash(n);
    SplitSigned(p, x, y, p', x', y');
    NatToDecimalInjective(m, n);
  }

  lemma IntToDecimalInjective(a: int, b: int)
    requires IntToDecimal(a) == IntToDecimal(b)
    ensures a == b
  {
    IntPrefixUnique(a, "", b, "");
  }

  lemma KeyRegroups(a: string, b: string, c: string)
    ensures a + "-" + b + "-" + c == a + "-" + (b + "-" + c)
  {
  }

  /** Distinct cells never share a registry key, for any integer coordinates. */
  lemma GetCellKeyInjective(page: int, row: int, col: int, page': int, row': int, col': int)
    ensures GetCellKey(page, row, col) == GetCellKey(page', row', col') <==>
            page == page' && row == row' && col == col'
  {
    if GetCellKey(page, row, col) == GetCellKey(page', row', col') {
      var c, c' := IntToDecimal(col), IntToDecimal(col');
      var rest := IntToDecimal(row) + "-" + c;
      var rest' := IntToDecimal(row') + "-" + c';
      KeyRegroups(IntToDecimal(page), IntToDecimal(row), c);
      KeyRegroups(IntToDecimal(page'), IntToDecimal(row'), c');
      IntPrefixUnique(page, rest, page', rest');
      IntPrefixUnique(row, c, row', c');
      IntToDecimalInjective(col, col');
    }
  }
}
