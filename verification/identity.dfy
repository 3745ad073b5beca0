/** The bound identity `ID` and the collection `BTreeSet<ID>` that holds them.
    `ID`'s equality and order look only at the joined string
    `platform + identity`; `bind_time` never takes part, and two different
    (platform, identity) pairs that join to the same string are the same
    element. The set is therefore modelled as a map from that joined key to
    the one element stored under it. */
module Identity {
  import opened Results
  import opened Lex

  datatype ID = ID(platform: string, identity: string, bindTime: string)

  /** The string every comparison of `ID`s is made on. */
  function Key(x: ID): string {
    x.platform + x.identity
  }

  /** `ID::default()`: the empty sentinel, also the initial main identity. */
  const Empty: ID := ID("", "", "")

  /** `impl PartialEq for ID`: reflexive, and on a shared identity it is
      plain platform equality. */
  predicate Eq(x: ID, y: ID): (r: bool)
    ensures x == y ==> r
    ensures r ==> |x.platform| + |x.identity| == |y.platform| + |y.identity|
    ensures x.identity == y.identity ==> (r <==> x.platform == y.platform)
  {
    assert x.identity == y.identity && Key(x) == Key(y) ==>
      x.platform == Key(x)[..|x.platform|] && y.platform == Key(y)[..|y.platform|];
    Key(x) == Key(y)
  }

  /** `impl Ord for ID`: `Equal` exactly for `eq` elements. */
  function IdCmp(x: ID, y: ID): (r: Ordering)
    ensures r == Equal <==> Eq(x, y)
  {
    CmpEqualIff(Key(x), Key(y));
    Cmp(Key(x), Key(y))
  }

  /** `impl PartialOrd for ID`: always an answer, `Equal` exactly for `eq`
      elements. */
  function PartialCmp(x: ID, y: ID): (r: Option<Ordering>)
    ensures r.Some? && (r.value == Equal <==> Eq(x, y))
  {
    Some(IdCmp(x, y))
  }

  /** The bind time never influences equality or order. */
  lemma BindTimeIgnored(x: ID, y: ID, t: string, u: string)
    ensures Eq(x, y) <==> Eq(x.(bindTime := t), y.(bindTime := u))
    ensures IdCmp(x, y) == IdCmp(x.(bindTime := t), y.(bindTime := u))
  {
  }

  /** Equal platforms make equality field-wise: the join is unambiguous. */
  lemma SamePlatformEq(x: ID, y: ID)
    requires x.platform == y.platform
    ensures Eq(x, y) <==> x.identity == y.identity
  {
    if Eq(x, y) {
      assert x.identity == Key(x)[|x.platform|..];
      assert y.identity == Key(y)[|y.platform|..];
    }
  }

  /** Two equal `ID`s on different platforms need one platform to be a
      proper prefix of the other. */
  lemma AliasNeedsPrefixPlatform(x: ID, y: ID)
    requires Eq(x, y) && x.platform != y.platform
    ensures x.platform < y.platform || y.platform < x.platform
  {
    if |x.platform| <= |y.platform| {
      assert x.platform == Key(x)[..|x.platform|];
      assert y.platform[..|x.platform|] == Key(y)[..|x.platform|];
    } else {
      assert y.platform == Key(y)[..|y.platform|];
      assert x.platform[..|y.platform|] == Key(x)[..|y.platform|];
    }
  }

  /** The aliasing the join allows: ("ab", "c") equals ("a", "bc"). */
  lemma AliasExample()
    ensures Eq(ID("ab", "c", ""), ID("a", "bc", "1"))
    ensures ID("ab", "c", "") != ID("a", "bc", "1")
  {
    assert Key(ID("ab", "c", "")) == "abc";
    assert Key(ID("a", "bc", "1")) == "abc";
  }

  /** `cmp` answers `Equal` exactly when `eq` holds, reverses when the
      arguments swap, and `partial_cmp` always agrees with it. */
  lemma CmpAgreesWithEq(x: ID, y: ID)
    ensures IdCmp(x, y) == Equal <==> Eq(x, y)
    ensures IdCmp(y, x) == IdCmp(x, y).Reverse()
    ensures PartialCmp(x, y) == Some(IdCmp(x, y))
  {
    CmpEqualIff(Key(x), Key(y));
    CmpAntisymmetric(Key(x), Key(y));
  }

  /** The `BTreeSet<ID>` of bound identities, by joined key. */
  type IdSet = map<string, ID>

  /** Every element is stored under its own key. */
  ghost predicate WellKeyed(ids: IdSet) {
    forall k | k in ids :: Key(ids[k]) == k
  }

  /** `BTreeSet::contains`: membership up to `Eq`. */
  predicate Contains(ids: IdSet, x: ID) {
    Key(x) in ids
  }

  /** The elements of the set. */
  function Members(ids: IdSet): set<ID> {
    ids.Values
  }

  /** A well-keyed set holds at most one element per joined key, and an
      element is found by any `ID` equal to it. */
  lemma OnePerKey(ids: IdSet, a: ID, b: ID)
    requires WellKeyed(ids)
    requires a in Members(ids) && b in Members(ids) && Eq(a, b)
    ensures a == b
    ensures Contains(ids, a) && ids[Key(a)] == a
  {
    var ka :| ka in ids && ids[ka] == a;
    var kb :| kb in ids && ids[kb] == b;
  }

  /** `BTreeSet::insert`: when an equal element is already present the set
      keeps that element (with its own bind time) and is unchanged. */
  function Insert(ids: IdSet, x: ID): (r: IdSet)
    ensures Contains(r, x)
    ensures Contains(ids, x) ==> r == ids
    ensures !Contains(ids, x) ==> r[Key(x)] == x && |r| == |ids| + 1
    ensures forall k | k in ids :: k in r && r[k] == ids[k]
    ensures forall y :: Contains(r, y) <==> Contains(ids, y) || Eq(y, x)
    ensures WellKeyed(ids) ==> WellKeyed(r)
  {
    if Key(x) in ids then ids else ids[Key(x) := x]
  }

  /** `BTreeSet::remove`: removes the element equal to `x`, whatever
      platform/identity split it was stored with. */
  function Remove(ids: IdSet, x: ID): (r: IdSet)
    ensures !Contains(r, x)
    ensures forall y :: Contains(r, y) <==> Contains(ids, y) && !Eq(y, x)
    ensures forall k | k in r :: k in ids && r[k] == ids[k]
    ensures Contains(ids, x) ==> |r| == |ids| - 1
    ensures WellKeyed(ids) ==> WellKeyed(r)
  {
    ids - {Key(x)}
  }
}
