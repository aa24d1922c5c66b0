/** Values, the string search and a little arithmetic shared by the models. A string is a sequence of bytes. */
module Text {

  datatype Option<+T> = None | Some(value: T)

  /** `needle` stands in `text` at position `p`. */
  predicate At(text: string, needle: string, p: nat) {
    p + |needle| <= |text| && text[p..p + |needle|] == needle
  }

  /** std::string::find: the first occurrence at or after `from`; None stands for npos. */
  function Find(text: string, needle: string, from: nat): (r: Option<nat>)
    ensures r.None? ==> forall q: nat | from <= q :: !At(text, needle, q)
    ensures r.Some? ==> from <= r.value && At(text, needle, r.value)
    ensures r.Some? ==> forall q: nat | from <= q < r.value :: !At(text, needle, q)
    decreases |text| - from
  {
    if from + |needle| > |text| then None
    else if At(text, needle, from) then Some(from)
    else Find(text, needle, from + 1)
  }

  /** The last `n` elements, or all of them. */
  function Tail<T>(xs: seq<T>, n: nat): seq<T> {
    if |xs| <= n then xs else xs[|xs| - n..]
  }

  /** The parts one after the other. */
  function Flat<T>(parts: seq<seq<T>>): seq<T> {
    if parts == [] then [] else Flat(parts[..|parts| - 1]) + parts[|parts| - 1]
  }

  lemma {:induction false} FlatOneMore<T>(parts: seq<seq<T>>, n: nat)
    requires n < |parts|
    ensures Flat(parts[..n + 1]) == Flat(parts[..n]) + parts[n]
  {
    assert parts[..n + 1][..n] == parts[..n];
  }

  function Abs(x: real): real {
    if x < 0.0 then -x else x
  }

  /** A quotient is what multiplies back. */
  lemma {:induction false} Quotient(x: real, y: real, q: real)
    requires y != 0.0 && q * y == x
    ensures q == x / y
  {
    var p := x / y;
    assert (p - q) * y == 0.0;
  }

  /** Two spans of positions share a byte. */
  datatype Span = Span(start: nat, end: nat)

  predicate Overlap(s: Span, t: Span) {
    s.start < t.end && t.start < s.end
  }

  function Len(s: Span): int {
    s.end - s.start
  }
}
