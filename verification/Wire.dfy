/** Fixed-width integers and length-prefixed byte runs: the writer and the sticky-failure reader every
    wire format of the engine is built from, and the pure parsers they are compared with. */
module Wire {
  import opened Rational

  type Byte = x: nat | x < 256
  type Bytes = seq<Byte>

  // ---- integers ---------------------------------------------------------------------------------

  /** 256 to the power of width. */
  function Limit(width: nat): (n: nat)
    ensures n > 0
  {
    if width == 0 then 1 else 256 * Limit(width - 1)
  }

  /** The low width bytes of value, least significant first. */
  function Uint(width: nat, value: nat): (b: Bytes)
    ensures |b| == width
  {
    if width == 0 then [] else [value % 256] + Uint(width - 1, value / 256)
  }

  function ToUint(b: Bytes): (n: nat)
  {
    if b == [] then 0 else b[0] + 256 * ToUint(b[1..])
  }

  /** Two's complement. */
  function Int(width: nat, value: int): (b: Bytes)
    ensures |b| == width
  {
    Uint(width, value % Limit(width))
  }

  function ToInt(b: Bytes): int {
    if 2 * ToUint(b) < Limit(|b|) then ToUint(b) else ToUint(b) - Limit(|b|)
  }

  predicate IsInt(width: nat, value: int) {
    0 <= 2 * value + Limit(width) && 2 * value < Limit(width)
  }

  lemma {:induction false} UintRoundTrip(width: nat, value: nat)
    requires value < Limit(width)
    ensures ToUint(Uint(width, value)) == value
  {
    if width > 0 {
      UintRoundTrip(width - 1, value / 256);
      assert Uint(width, value)[1..] == Uint(width - 1, value / 256);
    }
  }

  lemma {:induction false} ToUintRoundTrip(b: Bytes)
    ensures ToUint(b) < Limit(|b|)
    ensures Uint(|b|, ToUint(b)) == b
  {
    if b != [] {
      ToUintRoundTrip(b[1..]);
      var n := ToUint(b);
      assert n == b[0] + 256 * ToUint(b[1..]);
      assert n % 256 == b[0] && n / 256 == ToUint(b[1..]);
      assert Uint(|b|, n) == [b[0]] + Uint(|b[1..]|, ToUint(b[1..]));
      assert b == [b[0]] + b[1..];
    }
  }

  lemma IntRoundTrip(width: nat, value: int)
    requires IsInt(width, value)
    ensures ToInt(Int(width, value)) == value
  {
    var unsigned := if value < 0 then value + Limit(width) else value;
    QuotientUnique(value, Limit(width), if value < 0 then -1 else 0, unsigned);
    UintRoundTrip(width, unsigned);
  }

  lemma ToIntRoundTrip(b: Bytes)
    ensures IsInt(|b|, ToInt(b)) && Int(|b|, ToInt(b)) == b
  {
    ToUintRoundTrip(b);
    QuotientUnique(ToInt(b), Limit(|b|), if ToInt(b) < 0 then -1 else 0, ToUint(b));
  }

  // ---- parsers ----------------------------------------------------------------------------------

  /** What a reader makes of the bytes in front of it: nothing, or a value and the bytes after it. */
  datatype Parsed<+T> = NoParse | Parse(value: T, rest: Bytes)
  {
    predicate IsFailure() { NoParse? }

    function PropagateFailure<U>(): Parsed<U>
      requires NoParse?
    {
      NoParse
    }

    function Extract(): (T, Bytes)
      requires Parse?
    {
      (value, rest)
    }
  }

  function GetUint(width: nat, s: Bytes): Parsed<nat> {
    if |s| < width then NoParse else Parse(ToUint(s[..width]), s[width..])
  }

  function GetInt(width: nat, s: Bytes): Parsed<int> {
    if |s| < width then NoParse else Parse(ToInt(s[..width]), s[width..])
  }

  /** A run of bytes behind its length. A length of 2^32 or more is cut down to 32 bits on the way out. */
  function Run(data: Bytes): Bytes {
    Uint(4, |data|) + data
  }

  function GetRun(s: Bytes): Parsed<Bytes> {
    var (size, s) :- GetUint(4, s);
    if |s| < size then NoParse else Parse(s[..size], s[size..])
  }

  lemma UintParses(width: nat, value: nat, t: Bytes)
    requires value < Limit(width)
    ensures GetUint(width, Uint(width, value) + t) == Parse(value, t)
  {
    UintRoundTrip(width, value);
    assert (Uint(width, value) + t)[..width] == Uint(width, value);
  }

  lemma IntParses(width: nat, value: int, t: Bytes)
    requires IsInt(width, value)
    ensures GetInt(width, Int(width, value) + t) == Parse(value, t)
  {
    IntRoundTrip(width, value);
    assert (Int(width, value) + t)[..width] == Int(width, value);
  }

  lemma RunParses(data: Bytes, t: Bytes)
    requires |data| < Limit(4)
    ensures GetRun(Run(data) + t) == Parse(data, t)
  {
    assert Run(data) + t == Uint(4, |data|) + (data + t);
    UintParses(4, |data|, data + t);
    assert (data + t)[..|data|] == data && (data + t)[|data|..] == t;
  }

  /** The other way: what was parsed prints back to exactly the bytes consumed. */
  lemma UintPrints(width: nat, s: Bytes)
    ensures var p := GetUint(width, s); p.Parse? ==> p.value < Limit(width) && s == Uint(width, p.value) + p.rest
  {
    if |s| >= width {
      ToUintRoundTrip(s[..width]);
      assert s == s[..width] + s[width..];
    }
  }

  lemma IntPrints(width: nat, s: Bytes)
    ensures var p := GetInt(width, s); p.Parse? ==> IsInt(width, p.value) && s == Int(width, p.value) + p.rest
  {
    if |s| >= width {
      ToIntRoundTrip(s[..width]);
      assert s == s[..width] + s[width..];
    }
  }

  lemma RunPrints(s: Bytes)
    ensures var p := GetRun(s); p.Parse? ==> |p.value| < Limit(4) && s == Run(p.value) + p.rest
  {
    UintPrints(4, s);
    var p := GetRun(s);
    if p.Parse? {
      var q := GetUint(4, s);
      assert q.rest == p.value + p.rest;
      assert s == Uint(4, |p.value|) + (p.value + p.rest) == Run(p.value) + p.rest;
    }
  }

  /** Appending bytes does not disturb a successful read. */
  lemma UintStable(width: nat, s: Bytes, t: Bytes)
    requires GetUint(width, s).Parse?
    ensures GetUint(width, s + t) == Parse(GetUint(width, s).value, GetUint(width, s).rest + t)
  {
    assert (s + t)[..width] == s[..width] && (s + t)[width..] == s[width..] + t;
  }

  lemma IntStable(width: nat, s: Bytes, t: Bytes)
    requires GetInt(width, s).Parse?
    ensures GetInt(width, s + t) == Parse(GetInt(width, s).value, GetInt(width, s).rest + t)
  {
    assert (s + t)[..width] == s[..width] && (s + t)[width..] == s[width..] + t;
  }

  lemma RunStable(s: Bytes, t: Bytes)
    requires GetRun(s).Parse?
    ensures GetRun(s + t) == Parse(GetRun(s).value, GetRun(s).rest + t)
  {
    UintStable(4, s, t);
    var p := GetUint(4, s);
    assert (p.rest + t)[..p.value] == p.rest[..p.value] && (p.rest + t)[p.value..] == p.rest[p.value..] + t;
  }

  // ---- lists ------------------------------------------------------------------------------------

  function PrintAll<T>(vs: seq<T>, printer: T -> Bytes): Bytes {
    if vs == [] then [] else printer(vs[0]) + PrintAll(vs[1..], printer)
  }

  function GetAll<T>(n: nat, parse: Bytes -> Parsed<T>, s: Bytes): Parsed<seq<T>> {
    if n == 0 then Parse([], s) else
    var (v, s) :- parse(s);
    var (vs, s) :- GetAll(n - 1, parse, s);
    Parse([v] + vs, s)
  }

  function PrintList<T>(vs: seq<T>, printer: T -> Bytes): Bytes {
    Uint(4, |vs|) + PrintAll(vs, printer)
  }

  function GetList<T>(parse: Bytes -> Parsed<T>, s: Bytes): Parsed<seq<T>> {
    var (n, s) :- GetUint(4, s);
    GetAll(n, parse, s)
  }

  /** What is printed is read back, whatever follows it. */
  ghost predicate Reads<T(!new)>(parse: Bytes -> Parsed<T>, printer: T -> Bytes, fits: T -> bool) {
    forall v, t {:trigger parse(printer(v) + t)} :: fits(v) ==> parse(printer(v) + t) == Parse(v, t)
  }

  /** What is read prints back to the bytes consumed. */
  ghost predicate Prints<T(!new)>(parse: Bytes -> Parsed<T>, printer: T -> Bytes) {
    forall s {:trigger parse(s)} :: parse(s).Parse? ==> s == printer(parse(s).value) + parse(s).rest
  }

  /** A successful read is unchanged by appended bytes. */
  ghost predicate Stable<T(!new)>(parse: Bytes -> Parsed<T>) {
    forall s, t {:trigger parse(s + t)} :: parse(s).Parse? ==> parse(s + t) == Parse(parse(s).value, parse(s).rest + t)
  }

  lemma {:induction false} AllRead<T(!new)>(parse: Bytes -> Parsed<T>, printer: T -> Bytes, fits: T -> bool, vs: seq<T>, t: Bytes)
    requires Reads(parse, printer, fits) && forall v <- vs :: fits(v)
    ensures GetAll(|vs|, parse, PrintAll(vs, printer) + t) == Parse(vs, t)
  {
    if vs == [] {
      assert PrintAll(vs, printer) + t == t;
    } else {
      var rest := PrintAll(vs[1..], printer) + t;
      assert PrintAll(vs, printer) + t == printer(vs[0]) + rest;
      AllRead(parse, printer, fits, vs[1..], t);
      assert vs == [vs[0]] + vs[1..];
    }
  }

  lemma ListReads<T(!new)>(parse: Bytes -> Parsed<T>, printer: T -> Bytes, fits: T -> bool, vs: seq<T>, t: Bytes)
    requires Reads(parse, printer, fits) && (forall v <- vs :: fits(v)) && |vs| < Limit(4)
    ensures GetList(parse, PrintList(vs, printer) + t) == Parse(vs, t)
  {
    assert PrintList(vs, printer) + t == Uint(4, |vs|) + (PrintAll(vs, printer) + t);
    UintParses(4, |vs|, PrintAll(vs, printer) + t);
    AllRead(parse, printer, fits, vs, t);
  }

  lemma {:induction false} AllPrint<T(!new)>(n: nat, parse: Bytes -> Parsed<T>, printer: T -> Bytes, s: Bytes)
    requires Prints(parse, printer)
    ensures var p := GetAll(n, parse, s); p.Parse? ==> |p.value| == n && s == PrintAll(p.value, printer) + p.rest
  {
    if n > 0 && parse(s).Parse? {
      AllPrint(n - 1, parse, printer, parse(s).rest);
      var p := GetAll(n, parse, s);
      if p.Parse? {
        assert p.value[1..] == GetAll(n - 1, parse, parse(s).rest).value;
        assert s == printer(p.value[0]) + (PrintAll(p.value[1..], printer) + p.rest);
      }
    }
  }

  lemma ListPrints<T(!new)>(parse: Bytes -> Parsed<T>, printer: T -> Bytes, s: Bytes)
    requires Prints(parse, printer)
    ensures var p := GetList(parse, s); p.Parse? ==> |p.value| < Limit(4) && s == PrintList(p.value, printer) + p.rest
  {
    UintPrints(4, s);
    var n := GetUint(4, s);
    if n.Parse? {
      AllPrint(n.value, parse, printer, n.rest);
      var p := GetList(parse, s);
      if p.Parse? {
        assert s == Uint(4, n.value) + (PrintAll(p.value, printer) + p.rest) == PrintList(p.value, printer) + p.rest;
      }
    }
  }

  lemma {:induction false} AllStable<T(!new)>(n: nat, parse: Bytes -> Parsed<T>, s: Bytes, t: Bytes)
    requires Stable(parse) && GetAll(n, parse, s).Parse?
    ensures GetAll(n, parse, s + t) == Parse(GetAll(n, parse, s).value, GetAll(n, parse, s).rest + t)
  {
    if n > 0 {
      assert parse(s + t) == Parse(parse(s).value, parse(s).rest + t);
      AllStable(n - 1, parse, parse(s).rest, t);
    }
  }

  lemma ListStable<T(!new)>(parse: Bytes -> Parsed<T>, s: Bytes, t: Bytes)
    requires Stable(parse) && GetList(parse, s).Parse?
    ensures GetList(parse, s + t) == Parse(GetList(parse, s).value, GetList(parse, s).rest + t)
  {
    UintStable(4, s, t);
    AllStable(GetUint(4, s).value, parse, GetUint(4, s).rest, t);
  }

  lemma Assoc(a: Bytes, b: Bytes, c: Bytes)
    ensures (a + b) + c == a + (b + c)
  {
  }

  /** A reader that has read k of n list elements has the other n - k in front of it. */
  lemma {:induction false} AllSplits<T>(n: nat, k: nat, parse: Bytes -> Parsed<T>, s: Bytes)
    requires k <= n
    ensures var front := GetAll(k, parse, s);
            GetAll(n, parse, s) ==
              if front.NoParse? then NoParse else
              var back := GetAll(n - k, parse, front.rest);
              if back.NoParse? then NoParse else Parse(front.value + back.value, back.rest)
  {
    if k > 0 && parse(s).Parse? {
      AllSplits(n - 1, k - 1, parse, parse(s).rest);
      var p, front := parse(s), GetAll(k - 1, parse, parse(s).rest);
      if front.Parse? {
        var back := GetAll(n - k, parse, front.rest);
        if back.Parse? {
          assert [p.value] + (front.value + back.value) == ([p.value] + front.value) + back.value;
        }
      }
    } else if k == 0 && GetAll(n, parse, s).Parse? {
      assert [] + GetAll(n, parse, s).value == GetAll(n, parse, s).value;
    }
  }

  // ---- the engine's writer and reader -----------------------------------------------------------

  class ByteWriter {
    var out: Bytes

    constructor ()
      ensures out == []
    {
      out := [];
    }

    method PutUint(width: nat, value: nat)
      modifies this
      ensures out == old(out) + Uint(width, value)
    {
      out := out + Uint(width, value);
    }

    method PutInt(width: nat, value: int)
      modifies this
      ensures out == old(out) + Int(width, value)
    {
      out := out + Int(width, value);
    }

    method PutBytes(data: Bytes)
      modifies this
      ensures out == old(out) + Run(data)
    {
      PutUint(4, |data|);
      out := out + data;
    }
  }

  /** A reader whose failure is sticky: after one read that runs out, every later one fails. A failed read
      leaves the caller's variable (passed here as its current value) and the position alone. */
  class ByteReader {
    const input: Bytes
    var pos: nat
    var ok: bool

    ghost predicate Valid()
      reads this
    {
      pos <= |input|
    }

    ghost function Rest(): Bytes
      requires Valid()
      reads this
    {
      input[pos..]
    }

    constructor (input: Bytes)
      ensures Valid() && ok && Rest() == input
    {
      this.input := input;
      pos, ok := 0, true;
    }

    /** Where this reader stands after a read that a parser p would have made. */
    twostate predicate Follows<T>(p: Parsed<T>, value: T, before: T)
      requires Valid() && old(Valid())
      reads this
    {
      if old(ok) && p.Parse? then ok && value == p.value && Rest() == p.rest
      else !ok && value == before
    }

    method ReadUint(width: nat, before: nat) returns (value: nat)
      requires Valid()
      modifies this
      ensures Valid() && Follows(GetUint(width, old(Rest())), value, before)
    {
      if !ok || |input| - pos < width {
        ok := false;
        return before;
      }
      assert input[pos..][..width] == input[pos..pos + width];
      value := ToUint(input[pos..pos + width]);
      pos := pos + width;
    }

    method ReadInt(width: nat, before: int) returns (value: int)
      requires Valid()
      modifies this
      ensures Valid() && Follows(GetInt(width, old(Rest())), value, before)
    {
      if !ok || |input| - pos < width {
        ok := false;
        return before;
      }
      assert input[pos..][..width] == input[pos..pos + width];
      value := ToInt(input[pos..pos + width]);
      pos := pos + width;
    }

    method ReadBytes(before: Bytes) returns (data: Bytes)
      requires Valid()
      modifies this
      ensures Valid() && Follows(GetRun(old(Rest())), data, before)
    {
      var size := ReadUint(4, 0);
      if !ok {
        return before;
      }
      if |input| - pos < size {
        ok := false;
        return before;
      }
      assert input[pos..][..size] == input[pos..pos + size];
      data := input[pos..pos + size];
      pos := pos + size;
    }

    predicate AtEnd()
      reads this
    {
      pos == |input|
    }
  }
}
