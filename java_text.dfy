/** The few pieces of java.lang behaviour the NFA loader relies on:
    String.split(","), Integer.parseInt, String.valueOf(int), List.get and
    String.charAt, with the unchecked exceptions they raise as Fault values. */
module JavaText {

  datatype Option<+T> = None | Some(value: T)

  /** Success or failure; supports `:-`. */
  datatype Result<+T, +E> = Ok(value: T) | Err(error: E) {
    predicate IsFailure() { Err? }
    function PropagateFailure<U>(): Result<U, E> requires Err? { Err(error) }
    function Extract(): T requires Ok? { value }
  }

  /** The unchecked exceptions a line parser can raise. */
  datatype Fault =
    | IndexOutOfBounds        // List.get past the end of the row, or of the slot list
    | StringIndexOutOfBounds  // charAt(0) on an empty field
    | NumberFormat            // Integer.parseInt on text that is not an int literal

  const INT_MIN: int := -0x8000_0000
  const INT_MAX: int := 0x7fff_ffff

  /** Java's 32-bit `int`. */
  newtype Int32 = x: int | -0x8000_0000 <= x <= 0x7fff_ffff

  // ---------------------------------------------------------------- split

  /** The comma-separated pieces of `s`, empty pieces included: one piece
      more than `s` has commas, and none of them holds a comma. */
  function Pieces(s: string): (r: seq<string>)
    ensures |r| >= 1
    ensures forall i :: 0 <= i < |r| ==> ',' !in r[i]
  {
    if s == [] then [[]]
    else
      var rest := Pieces(s[1..]);
      if s[0] == ',' then [[]] + rest
      else [[s[0]] + rest[0]] + rest[1..]
  }

  /** The fields glued back together with commas. */
  function Join(fields: seq<string>): string
    requires |fields| >= 1
  {
    if |fields| == 1 then fields[0] else fields[0] + "," + Join(fields[1..])
  }

  /** Drops the empty strings at the end of `fs`, as `split` does when no
      limit is given. */
  function DropTrailingEmpty(fs: seq<string>): (r: seq<string>)
    ensures r <= fs
    ensures forall i :: |r| <= i < |fs| ==> fs[i] == ""
    ensures r == [] || r[|r| - 1] != ""
  {
    if fs == [] || fs[|fs| - 1] != "" then fs else DropTrailingEmpty(fs[..|fs| - 1])
  }

  /** `s.split(",")`: text without a comma comes back whole (so "" gives
      [""]); otherwise the pieces, with the trailing empty ones removed
      (so "1,0," gives ["1", "0"] and ",," gives []). */
  function Split(s: string): seq<string>
  {
    if ',' !in s then [s] else DropTrailingEmpty(Pieces(s))
  }

  /** The fields of `s.split(",")` hold no comma; they are the comma-separated
      pieces of `s` up to the trailing empty ones; with a comma in `s` the
      last field kept is not empty, and without one `s` comes back whole. */
  lemma SplitFields(s: string)
    ensures forall i :: 0 <= i < |Split(s)| ==> ',' !in Split(s)[i]
    ensures Split(s) <= Pieces(s)
    ensures forall i :: |Split(s)| <= i < |Pieces(s)| ==> Pieces(s)[i] == ""
    ensures ',' in s ==> Split(s) == [] || Split(s)[|Split(s)| - 1] != ""
    ensures ',' !in s ==> Split(s) == [s]
  {
    if ',' !in s {
      PiecesPrefix(s, []);
      assert s + [] == s;
    }
  }

  lemma {:induction false} PiecesPrefix(a: string, t: string)
    requires ',' !in a
    ensures Pieces(a + t) == [a + Pieces(t)[0]] + Pieces(t)[1..]
  {
    if a == [] {
      var p := Pieces(t);
      assert a + t == t && a + p[0] == p[0];
      assert p == [p[0]] + p[1..];
    } else {
      assert (a + t)[0] == a[0] && (a + t)[1..] == a[1..] + t;
      PiecesPrefix(a[1..], t);
      var rest := Pieces(a[1..] + t);
      assert rest[0] == a[1..] + Pieces(t)[0] && rest[1..] == Pieces(t)[1..];
      assert [a[0]] + (a[1..] + Pieces(t)[0]) == a + Pieces(t)[0];
    }
  }

  /** Splitting and joining are inverse: gluing the pieces gives the text back. */
  lemma {:induction false} JoinPieces(s: string)
    ensures Join(Pieces(s)) == s
  {
    if s != [] {
      var rest := Pieces(s[1..]);
      JoinPieces(s[1..]);
      if s[0] == ',' {
        assert Join([[]] + rest) == [] + "," + Join(rest);
        assert s == "," + s[1..];
      } else {
        var r := Pieces(s);
        assert r[0] == [s[0]] + rest[0] && r[1..] == rest[1..];
        if |rest| == 1 {
          assert Join(r) == [s[0]] + rest[0];
        } else {
          assert Join(rest) == rest[0] + "," + Join(rest[1..]);
          assert Join(r) == ([s[0]] + rest[0]) + "," + Join(rest[1..]);
        }
        assert s == [s[0]] + s[1..];
      }
    }
  }

  /** ... and cutting comma-free fields glued with commas gives the fields back. */
  lemma {:induction false} PiecesOfJoin(fields: seq<string>)
    requires |fields| >= 1
    requires forall i :: 0 <= i < |fields| ==> ',' !in fields[i]
    ensures Pieces(Join(fields)) == fields
  {
    if |fields| == 1 {
      PiecesPrefix(fields[0], []);
      assert fields[0] + [] == fields[0];
    } else {
      var tail := Join(fields[1..]);
      PiecesOfJoin(fields[1..]);
      assert ("," + tail)[0] == ',' && ("," + tail)[1..] == tail;
      assert Pieces("," + tail) == [[]] + fields[1..];
      assert Join(fields) == fields[0] + ("," + tail);
      PiecesPrefix(fields[0], "," + tail);
      assert fields[0] + [] == fields[0];
      assert fields == [fields[0]] + fields[1..];
    }
  }

  lemma JoinHasComma(fields: seq<string>)
    requires |fields| >= 2
    ensures ',' in Join(fields)
  {
    var f0, tail := fields[0], Join(fields[1..]);
    assert Join(fields) == f0 + ("," + tail);
    assert Join(fields)[|f0|] == ',';
  }

  /** `split` of comma-free fields glued with commas: the fields, less the
      empty ones at the end. */
  lemma SplitOfJoin(fields: seq<string>)
    requires |fields| >= 2
    requires forall i :: 0 <= i < |fields| ==> ',' !in fields[i]
    ensures Split(Join(fields)) == DropTrailingEmpty(fields)
  {
    JoinHasComma(fields);
    PiecesOfJoin(fields);
  }

  // ---------------------------------------------------------- integers

  predicate IsDigit(c: char) { '0' <= c <= '9' }

  predicate AllDigits(s: string) { forall i :: 0 <= i < |s| ==> IsDigit(s[i]) }

  function DigitValue(c: char): nat
    requires IsDigit(c)
  {
    (c as int) - ('0' as int)
  }

  function DigitChar(d: nat): (c: char)
    requires d < 10
    ensures IsDigit(c) && DigitValue(c) == d
  {
    (('0' as int) + d) as char
  }

  /** The value of a string of decimal digits, most significant first. */
  function DigitsValue(s: string): nat
    requires AllDigits(s)
    decreases |s|
  {
    if s == [] then 0 else DigitsValue(s[..|s| - 1]) * 10 + DigitValue(s[|s| - 1])
  }

  /** `Integer.parseInt(s)`: an optional '+' or '-', then at least one
      decimal digit (leading zeros allowed), with a value that fits an int;
      anything else throws NumberFormatException. */
  function ParseInt(s: string): Result<Int32, Fault>
  {
    if |s| == 0 then Err(NumberFormat)
    else
      var signed := s[0] == '-' || s[0] == '+';
      var digits := if signed then s[1..] else s;
      if |digits| == 0 || !AllDigits(digits) then Err(NumberFormat)
      else
        var magnitude := DigitsValue(digits);
        var v: int := if s[0] == '-' then -(magnitude as int) else magnitude;
        if INT_MIN <= v <= INT_MAX then Ok(v as Int32)
        else Err(NumberFormat)
  }

  /** `parseInt` throws nothing but NumberFormatException, and the text it
      accepts is not empty and holds no comma. */
  lemma ParseIntFormat(s: string)
    ensures ParseInt(s).Err? ==> ParseInt(s).error == NumberFormat
    ensures ParseInt(s).Ok? ==> |s| > 0 && ',' !in s
  {
    if ParseInt(s).Ok? {
      var digits := if s[0] == '-' || s[0] == '+' then s[1..] else s;
      assert forall i :: 1 <= i < |s| ==> s[i] == digits[i - (|s| - |digits|)];
    }
  }

  /** Decimal text of a natural number, without leading zeros. */
  function NatToString(n: nat): (r: string)
    ensures |r| >= 1 && AllDigits(r)
  {
    if n < 10 then [DigitChar(n)] else NatToString(n / 10) + [DigitChar(n % 10)]
  }

  /** `String.valueOf(int)`: '-' before the digits of a negative number. */
  function IntToString(n: int): (r: string)
    ensures |r| >= 1 && ',' !in r
  {
    if n < 0 then "-" + NatToString(-n) else NatToString(n)
  }

  lemma {:induction false} NatToStringValue(n: nat)
    ensures DigitsValue(NatToString(n)) == n
  {
    if n >= 10 {
      NatToStringValue(n / 10);
      var s := NatToString(n);
      assert s[..|s| - 1] == NatToString(n / 10);
    }
  }

  /** parseInt reads back what valueOf writes, and accepts the decimal text
      of exactly the numbers that fit an int. */
  lemma ParseIntToString(n: int)
    ensures ParseInt(IntToString(n)).Ok? <==> INT_MIN <= n <= INT_MAX
    ensures ParseInt(IntToString(n)).Ok? ==> ParseInt(IntToString(n)).value as int == n
  {
    if n < 0 {
      NatToStringValue(-n);
      assert IntToString(n)[1..] == NatToString(-n);
    } else {
      NatToStringValue(n);
    }
  }

  /** valueOf gives different text for different ints. */
  lemma IntToStringInjective(a: Int32, b: Int32)
    requires IntToString(a as int) == IntToString(b as int)
    ensures a == b
  {
    ParseIntToString(a as int);
    ParseIntToString(b as int);
  }

  // ------------------------------------------------ List.get, charAt(0)

  /** `row.get(k)` on the list made from the split row. */
  function Get(row: seq<string>, k: nat): (r: Result<string, Fault>)
    ensures r.Ok? <==> k < |row|
    ensures r.Ok? ==> r.value == row[k]
    ensures r.Err? ==> r.error == IndexOutOfBounds
  {
    if k < |row| then Ok(row[k]) else Err(IndexOutOfBounds)
  }

  /** `field.charAt(0)`. */
  function FirstChar(field: string): (r: Result<char, Fault>)
    ensures r.Ok? <==> field != ""
    ensures r.Ok? ==> r.value == field[0]
    ensures r.Err? ==> r.error == StringIndexOutOfBounds
  {
    if |field| > 0 then Ok(field[0]) else Err(StringIndexOutOfBounds)
  }
}
