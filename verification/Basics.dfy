/** Shared value types and the fixed-width and text primitives the control plane relies on. */
module Basics {

  datatype Option<+T> = None | Some(value: T)

  datatype Result<+T, +E> = Ok(value: T) | Err(error: E)

  datatype Ip = V4(bits: nat) | V6(bits: nat)

  datatype SocketAddr = SocketAddr(ip: Ip, port: nat)

  /** The largest unsigned 64-bit value: every millisecond timestamp and counter lives below it. */
  const U64_MAX: nat := 0xFFFF_FFFF_FFFF_FFFF

  type U64 = n: nat | n <= U64_MAX

  const U32_MAX: nat := 0xFFFF_FFFF

  type Bytes = seq<bv8>

  /** `u64::saturating_add`. */
  function SatAdd(a: nat, b: nat): nat {
    if a + b > U64_MAX then U64_MAX else a + b
  }

  /** `u64::saturating_sub`. */
  function SatSub(a: nat, b: nat): nat {
    if a < b then 0 else a - b
  }

  function Min(a: nat, b: nat): nat {
    if a <= b then a else b
  }

  function Max(a: nat, b: nat): nat {
    if a <= b then b else a
  }

  /** The last `n` elements of `s`, or all of them when there are fewer. */
  function LastN<T>(s: seq<T>, n: nat): seq<T> {
    if |s| <= n then s else s[|s| - n..]
  }

  /** Appending to a list that drops its oldest element when it holds `n`. */
  function PushBounded<T>(s: seq<T>, x: T, n: nat): seq<T>
    requires n > 0
  {
    (if |s| == n then s[1..] else s) + [x]
  }

  lemma PushKeepsLast<T>(s: seq<T>, x: T, n: nat)
    requires n > 0
    ensures PushBounded(LastN(s, n), x, n) == LastN(s + [x], n)
  {
  }

  /** The Unicode White_Space property, which is what `str::trim` strips. */
  predicate IsWhitespace(c: char) {
    || '\U{0009}' <= c <= '\U{000D}' || c == ' ' || c == '\U{0085}' || c == '\U{00A0}'
    || c == '\U{1680}' || '\U{2000}' <= c <= '\U{200A}' || c == '\U{2028}' || c == '\U{2029}'
    || c == '\U{202F}' || c == '\U{205F}' || c == '\U{3000}'
  }

  function TrimStart(s: string): string {
    if s != [] && IsWhitespace(s[0]) then TrimStart(s[1..]) else s
  }

  function TrimEnd(s: string): string {
    if s != [] && IsWhitespace(s[|s| - 1]) then TrimEnd(s[..|s| - 1]) else s
  }

  /** `str::trim`. */
  function Trim(s: string): string {
    TrimEnd(TrimStart(s))
  }

  /** `str::len`: the number of bytes in the UTF-8 encoding. */
  function Utf8Len(s: string): nat {
    if s == [] then 0
    else (if s[0] < '\U{0080}' then 1 else if s[0] < '\U{0800}' then 2
          else if s[0] < '\U{10000}' then 3 else 4) + Utf8Len(s[1..])
  }

  predicate NoDuplicates<T(==)>(s: seq<T>) {
    forall i, j :: 0 <= i < j < |s| ==> s[i] != s[j]
  }

  lemma {:induction false} TrimStartStops(s: string)
    ensures TrimStart(s) == [] || !IsWhitespace(TrimStart(s)[0])
  {
    if s != [] && IsWhitespace(s[0]) {
      TrimStartStops(s[1..]);
    }
  }

  /** A duplicate-free sequence has as many elements as its element set. */
  lemma {:induction false} NoDuplicatesCardinality<T>(s: seq<T>)
    requires NoDuplicates(s)
    ensures |set x | x in s| == |s|
  {
    if s != [] {
      var front, last := s[..|s| - 1], s[|s| - 1];
      NoDuplicatesCardinality(front);
      assert s == front + [last];
      assert (set x | x in s) == (set x | x in front) + {last};
      assert last !in front;
    }
  }

  /** Does each item in turn; the first failure is the result. */
  function Collect<T, U, E>(items: seq<T>, one: T -> Result<U, E>): Result<seq<U>, E> {
    if items == [] then Ok([])
    else match Collect(items[..|items| - 1], one)
      case Err(error) => Err(error)
      case Ok(done) =>
        match one(items[|items| - 1])
        case Err(error) => Err(error)
        case Ok(last) => Ok(done + [last])
  }

  lemma {:induction false} CollectStops<T, U, E>(items: seq<T>, one: T -> Result<U, E>, i: nat)
    requires i <= |items| && Collect(items[..i], one).Err?
    ensures Collect(items, one) == Collect(items[..i], one)
    decreases |items|
  {
    if i < |items| {
      assert items[..|items| - 1][..i] == items[..i];
      CollectStops(items[..|items| - 1], one, i);
    } else {
      assert items[..i] == items;
    }
  }

  /** It succeeds exactly when every item does, with each result in its place. */
  lemma {:induction false} CollectMeaning<T, U, E>(items: seq<T>, one: T -> Result<U, E>)
    ensures Collect(items, one).Ok? <==> forall i :: 0 <= i < |items| ==> one(items[i]).Ok?
    ensures Collect(items, one).Ok? ==>
      && |Collect(items, one).value| == |items|
      && forall i :: 0 <= i < |items| ==> Ok(Collect(items, one).value[i]) == one(items[i])
    decreases |items|
  {
    if items != [] {
      var n := |items| - 1;
      CollectMeaning(items[..n], one);
      assert forall i :: 0 <= i < n ==> items[..n][i] == items[i];
    }
  }
}
