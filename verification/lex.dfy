/** The order Rust's `Ord for String` imposes: lexicographic on the UTF-8
    bytes. UTF-8 preserves code-point order, so comparing the code points of
    a `string` gives the same answer. This is the order of `BTreeSet<ID>` and
    of the `BTreeMap<String, _>` content stores. */
module Lex {

  datatype Ordering = Less | Equal | Greater {
    function Reverse(): Ordering {
      match this
      case Less => Greater
      case Equal => Equal
      case Greater => Less
    }
  }

  /** `a.cmp(b)` on strings. A prefix sorts before every longer extension,
      and only strings of one length compare `Equal`. */
  function Cmp(a: string, b: string): (r: Ordering)
    ensures r == Equal ==> |a| == |b|
    ensures a <= b ==> r != Greater
    ensures a < b ==> r == Less
    decreases |a|
  {
    if a == [] then (if b == [] then Equal else Less)
    else if b == [] then Greater
    else if a[0] < b[0] then Less
    else if b[0] < a[0] then Greater
    else Cmp(a[1..], b[1..])
  }

  predicate Below(a: string, b: string) {
    Cmp(a, b) == Less
  }

  /** `Equal` is returned exactly for identical strings. */
  lemma {:induction false} CmpEqualIff(a: string, b: string)
    ensures Cmp(a, b) == Equal <==> a == b
    decreases |a|
  {
    if a != [] && b != [] && a[0] == b[0] {
      CmpEqualIff(a[1..], b[1..]);
      assert a == [a[0]] + a[1..];
      assert b == [b[0]] + b[1..];
    }
  }

  /** Swapping the arguments reverses the answer. */
  lemma {:induction false} CmpAntisymmetric(a: string, b: string)
    ensures Cmp(b, a) == Cmp(a, b).Reverse()
    decreases |a|
  {
    if a != [] && b != [] && a[0] == b[0] {
      CmpAntisymmetric(a[1..], b[1..]);
    }
  }

  lemma {:induction false} BelowTransitive(a: string, b: string, c: string)
    requires Below(a, b) && Below(b, c)
    ensures Below(a, c)
    decreases |a|
  {
    if a != [] && a[0] == b[0] && b[0] == c[0] {
      BelowTransitive(a[1..], b[1..], c[1..]);
    }
  }

  /** Distinct strings are always comparable. */
  lemma BelowConnected(a: string, b: string)
    requires a != b
    ensures Below(a, b) || Below(b, a)
  {
    CmpEqualIff(a, b);
    CmpAntisymmetric(a, b);
  }

  ghost predicate StrictlyAscending(s: seq<string>) {
    forall i, j | 0 <= i < j < |s| :: Below(s[i], s[j])
  }

  ghost predicate IsLeast(m: string, keys: set<string>) {
    m in keys && forall k | k in keys :: k == m || Below(m, k)
  }

  lemma {:induction false} LeastExists(keys: set<string>)
    requires keys != {}
    ensures exists m :: IsLeast(m, keys)
    decreases |keys|
  {
    var x :| x in keys;
    if keys == {x} {
      assert IsLeast(x, keys);
    } else {
      var rest := keys - {x};
      LeastExists(rest);
      var m :| IsLeast(m, rest);
      BelowConnected(x, m);
      if Below(x, m) {
        forall k | k in keys
          ensures k == x || Below(x, k)
        {
          if k != x && k != m {
            BelowTransitive(x, m, k);
          }
        }
        assert IsLeast(x, keys);
      } else {
        assert IsLeast(m, keys);
      }
    }
  }

  ghost function Least(keys: set<string>): (m: string)
    requires keys != {}
    ensures IsLeast(m, keys)
  {
    LeastExists(keys);
    var m :| IsLeast(m, keys);
    m
  }

  /** The keys of a B-tree in iteration order: every key exactly once,
      strictly ascending. */
  ghost function KeyOrder(keys: set<string>): (r: seq<string>)
    ensures |r| == |keys|
    ensures forall k :: k in keys <==> k in r
    ensures StrictlyAscending(r)
    decreases |keys|
  {
    if keys == {} then []
    else
      var m := Least(keys);
      var rest := KeyOrder(keys - {m});
      assert forall j | 0 <= j < |rest| :: rest[j] in keys - {m};
      [m] + rest
  }
}
