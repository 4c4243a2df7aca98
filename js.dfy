/** The parts of JavaScript's value semantics that the request handlers rely on:
    truthiness and `||`, `String(v)`, `trim`, `toLowerCase`, `split` on one
    character, `includes` and the UTF-16 `length` of a string. */
module Js {

  datatype Option<T> = None | Some(value: T)

  datatype Result<T> = Ok(value: T) | Err(message: string)

  /** A value as it arrives in a parsed JSON request body. A key that is absent
      reads as `Undefined`; `Obj` stands for any object or array. */
  datatype Value = Undefined | Null | Bool(b: bool) | Num(n: int) | Str(s: string) | Obj

  /** A request body: the object `express.json()` produced. */
  type Body = map<string, Value>

  /** `body[k]` */
  function Field(body: Body, k: string): (v: Value)
    ensures k !in body ==> v == Undefined
  {
    if k in body then body[k] else Undefined
  }

  /** JavaScript truthiness (`Boolean(v)`). */
  predicate Truthy(v: Value) {
    match v
    case Undefined => false
    case Null => false
    case Bool(b) => b
    case Num(n) => n != 0
    case Str(s) => s != ""
    case Obj => true
  }

  /** `a || b` */
  function Or(a: Value, b: Value): (r: Value)
    ensures Truthy(r) <==> Truthy(a) || Truthy(b)
    ensures r == a || r == b
  {
    if Truthy(a) then a else b
  }

  function DigitChar(d: nat): (c: char)
    requires d < 10
    ensures '0' <= c <= '9'
  {
    ['0', '1', '2', '3', '4', '5', '6', '7', '8', '9'][d]
  }

  /** The decimal numeral of `n`, without leading zeros. */
  function Decimal(n: nat): (r: string)
    ensures |r| >= 1
    ensures forall i :: 0 <= i < |r| ==> '0' <= r[i] <= '9'
  {
    if n < 10 then [DigitChar(n)] else Decimal(n / 10) + [DigitChar(n % 10)]
  }

  /** `String(v)`: a string is kept, every other value is rendered. */
  function ToStr(v: Value): (r: string)
    ensures v.Str? ==> r == v.s
    ensures !v.Str? ==> '@' !in r && r != ""
  {
    match v
    case Undefined => "undefined"
    case Null => "null"
    case Bool(b) => if b then "true" else "false"
    case Num(n) => if n < 0 then "-" + Decimal(-n) else Decimal(n)
    case Str(s) => s
    case Obj => "[object Object]"
  }

  /** The characters `String.prototype.trim` removes: ECMAScript WhiteSpace
      and LineTerminator. */
  predicate IsSpace(c: char) {
    var n := c as int;
    n == 0x09 || n == 0x0A || n == 0x0B || n == 0x0C || n == 0x0D || n == 0x20
    || n == 0xA0 || n == 0x1680 || (0x2000 <= n <= 0x200A) || n == 0x2028
    || n == 0x2029 || n == 0x202F || n == 0x205F || n == 0x3000 || n == 0xFEFF
  }

  /** A string with no whitespace at either end. */
  predicate Trimmed(s: string) {
    s == [] || (!IsSpace(s[0]) && !IsSpace(s[|s| - 1]))
  }

  /** A string that is empty or all whitespace: `!s.trim()`. */
  predicate Blank(s: string) {
    forall i :: 0 <= i < |s| ==> IsSpace(s[i])
  }

  function TrimStart(s: string): (r: string)
    ensures |r| <= |s| && r == s[|s| - |r|..]
    ensures r == [] || !IsSpace(r[0])
    ensures forall i :: 0 <= i < |s| - |r| ==> IsSpace(s[i])
  {
    if |s| > 0 && IsSpace(s[0]) then TrimStart(s[1..]) else s
  }

  function TrimEnd(s: string): (r: string)
    ensures |r| <= |s| && r == s[..|r|]
    ensures r == [] || !IsSpace(r[|r| - 1])
    ensures forall i :: |r| <= i < |s| ==> IsSpace(s[i])
  {
    if |s| > 0 && IsSpace(s[|s| - 1]) then TrimEnd(s[..|s| - 1]) else s
  }

  /** `s.trim()`: the longest infix of `s` with no whitespace at either end
      (`TrimEmpty` and `TrimTrimmed` state when it is empty and when it
      changes nothing). */
  function Trim(s: string): (r: string)
    ensures Trimmed(r)
    ensures |r| <= |s|
  {
    var t := TrimStart(s);
    var r := TrimEnd(t);
    assert r != [] ==> !IsSpace(r[0]) by {
      if r != [] { assert r[0] == t[0]; }
    }
    r
  }

  /** Trimming leaves nothing exactly when the string is blank. */
  lemma TrimEmpty(s: string)
    ensures Trim(s) == [] <==> Blank(s)
  {
    var t := TrimStart(s);
    if TrimEnd(t) == [] {
      assert t == [];
    }
  }

  /** Trimming changes nothing on a string with no whitespace at either end. */
  lemma TrimTrimmed(s: string)
    requires Trimmed(s)
    ensures Trim(s) == s
  {
  }

  /** Trimming removes only whitespace, so it keeps an `@` exactly when
      the input had one. */
  lemma TrimKeepsAt(s: string)
    ensures '@' in Trim(s) <==> '@' in s
  {
    TrimStartKeepsAt(s);
    TrimEndKeepsAt(TrimStart(s));
  }

  lemma {:induction false} TrimStartKeepsAt(s: string)
    ensures '@' in TrimStart(s) <==> '@' in s
  {
    if |s| > 0 && IsSpace(s[0]) {
      TrimStartKeepsAt(s[1..]);
      AtNotSpace();
      InTail(s, '@');
    }
  }

  lemma AtNotSpace()
    ensures !IsSpace('@')
  {
  }

  /** A character other than the head is in a string exactly when it is in the tail. */
  lemma InTail(s: string, c: char)
    requires |s| > 0 && s[0] != c
    ensures c in s <==> c in s[1..]
  {
    assert s == [s[0]] + s[1..];
  }

  lemma {:induction false} TrimEndKeepsAt(s: string)
    ensures '@' in TrimEnd(s) <==> '@' in s
  {
    if |s| > 0 && IsSpace(s[|s| - 1]) {
      TrimEndKeepsAt(s[..|s| - 1]);
      assert s[|s| - 1] != '@' by { assert !IsSpace('@'); }
      assert '@' in s ==> '@' in s[..|s| - 1] by {
        if '@' in s {
          var i :| 0 <= i < |s| && s[i] == '@';
          assert s[..|s| - 1][i] == '@';
        }
      }
    }
  }

  function LowerChar(c: char): (d: char)
    ensures IsSpace(d) <==> IsSpace(c)
    ensures d == '@' <==> c == '@'
  {
    if 'A' <= c <= 'Z' then (c as int + 32) as char else c
  }

  /** `s.toLowerCase()` on the ASCII letters. */
  function Lower(s: string): (r: string)
    ensures |r| == |s|
    ensures forall i :: 0 <= i < |s| ==> r[i] == LowerChar(s[i])
  {
    if s == [] then [] else [LowerChar(s[0])] + Lower(s[1..])
  }

  predicate IsLower(s: string) {
    Lower(s) == s
  }

  /** Equality under a case-insensitive collation (ICU strength 2): case is
      folded, every other difference counts. */
  predicate SameIgnoringCase(a: string, b: string) {
    Lower(a) == Lower(b)
  }

  /** Lowercasing yields a lowercase string, keeps the ends free of
      whitespace and keeps or drops an `@` exactly as the input had one. */
  lemma LowerFacts(s: string)
    ensures IsLower(Lower(s))
    ensures Trimmed(s) ==> Trimmed(Lower(s))
    ensures '@' in Lower(s) <==> '@' in s
  {
    assert Lower(Lower(s)) == Lower(s);
    if '@' in s {
      var i :| 0 <= i < |s| && s[i] == '@';
      assert Lower(s)[i] == '@';
    }
  }

  /** On strings already in lower case the case-insensitive collation is
      plain equality. */
  lemma SameIgnoringCaseOnLower(a: string, b: string)
    requires IsLower(a) && IsLower(b)
    ensures SameIgnoringCase(a, b) <==> a == b
  {
  }

  /** The inverse of `Split`. */
  function Join(parts: seq<string>, d: char): (s: string)
    requires |parts| >= 1
  {
    if |parts| == 1 then parts[0] else parts[0] + [d] + Join(parts[1..], d)
  }

  /** `s.split(d)` for a one-character separator `d`: every piece is free of
      `d` and the pieces joined with `d` give `s` back; the empty string
      gives one empty piece. */
  function Split(s: string, d: char): (parts: seq<string>)
    ensures |parts| >= 1
    ensures forall k :: 0 <= k < |parts| ==> d !in parts[k]
    ensures Join(parts, d) == s
  {
    if s == [] then [[]]
    else
      var rest := Split(s[1..], d);
      if s[0] == d then
        assert Join([[]] + rest, d) == [d] + Join(rest, d) by {
          assert ([[]] + rest)[1..] == rest;
        }
        [[]] + rest
      else
        var parts := [[s[0]] + rest[0]] + rest[1..];
        assert Join(parts, d) == [s[0]] + Join(rest, d) by {
          if |rest| > 1 { assert parts[1..] == rest[1..]; }
        }
        parts
  }

  /** Splitting a join of `d`-free pieces gives the pieces back. */
  lemma {:induction false} SplitJoin(parts: seq<string>, d: char)
    requires |parts| >= 1
    requires forall k :: 0 <= k < |parts| ==> d !in parts[k]
    ensures Split(Join(parts, d), d) == parts
  {
    if |parts| == 1 {
      SplitFree(parts[0], d);
    } else {
      SplitJoin(parts[1..], d);
      SplitPrefix(parts[0], d, Join(parts[1..], d));
      assert [parts[0]] + parts[1..] == parts;
    }
  }

  /** A `d`-free string splits into itself alone. */
  lemma {:induction false} SplitFree(s: string, d: char)
    requires d !in s
    ensures Split(s, d) == [s]
  {
    if s != [] {
      SplitFree(s[1..], d);
      assert [s[0]] + s[1..] == s;
    }
  }

  /** A `d`-free prefix followed by `d` becomes the first piece. */
  lemma {:induction false} SplitPrefix(p: string, d: char, t: string)
    requires d !in p
    ensures Split(p + [d] + t, d) == [p] + Split(t, d)
  {
    if p == [] {
      assert p + [d] + t == [d] + t;
      assert ([d] + t)[1..] == t;
    } else {
      SplitPrefix(p[1..], d, t);
      assert (p + [d] + t)[1..] == p[1..] + [d] + t;
      assert [p[0]] + p[1..] == p;
    }
  }

  /** `s.length`: the number of UTF-16 code units, two for a character
      outside the Basic Multilingual Plane. */
  function Utf16Length(s: string): (n: nat)
    ensures |s| <= n <= 2 * |s|
  {
    if s == [] then 0 else (if s[0] as int > 0xFFFF then 2 else 1) + Utf16Length(s[1..])
  }
}
