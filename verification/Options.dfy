module Options {
  datatype Option<+T> = None | Some(value: T)

  datatype Result<+T, +E> = Ok(value: T) | Err(error: E)

  function Min(a: int, b: int): int {
    if a < b then a else b
  }

  function Max(a: int, b: int): int {
    if a < b then b else a
  }

  function Clamp(value: int, minimum: int, maximum: int): int {
    if value < minimum then minimum else if value > maximum then maximum else value
  }

  ghost predicate SuffixOf<T>(xs: seq<T>, ys: seq<T>) {
    |xs| <= |ys| && xs == ys[|ys| - |xs|..]
  }

  lemma SuffixMore<T>(xs: seq<T>, ys: seq<T>, more: seq<T>)
    requires SuffixOf(xs, ys)
    ensures SuffixOf(xs + more, ys + more)
  {
  }

  lemma SuffixTrans<T>(xs: seq<T>, ys: seq<T>, zs: seq<T>)
    requires SuffixOf(xs, ys) && SuffixOf(ys, zs)
    ensures SuffixOf(xs, zs)
  {
  }

  lemma SuffixTail<T>(xs: seq<T>, ys: seq<T>)
    requires SuffixOf(xs, ys) && xs != []
    ensures SuffixOf(xs[1..], ys)
  {
  }

  /** Two additions behind, of which at most one adds anything. */
  lemma SuffixBoth<T>(xs: seq<T>, ys: seq<T>, zs: seq<T>, a: seq<T>, b: seq<T>)
    requires SuffixOf(ys, zs + a) && SuffixOf(xs, ys + b) && (a != [] ==> b == [])
    ensures SuffixOf(xs, zs + if a == [] then b else a)
  {
    if a == [] {
      assert zs + a == zs;
      SuffixMore(ys, zs, b);
      SuffixTrans(xs, ys + b, zs + b);
    } else {
      assert ys + b == ys;
      SuffixTrans(xs, ys, zs + a);
    }
  }
}
