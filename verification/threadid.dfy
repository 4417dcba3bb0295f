/** `GenerateThreadIDHash` of model/thread.go. The ids are hashed by
    `hashstructure` as a `hash:"set"` slice, so the hash sees only the
    multiset of the two ids; the hash itself is a parameter of the model. */
module ThreadId {
  import opened Decimal

  /** `hashstructure.Hash` of `{Data: [u1, u2]}` with the `set` tag. */
  type Hasher = multiset<string> -> Uint64

  /** The thread id of the conversation between `u1` and `u2`: the decimal
      rendering of the hash. Its Go error result is always nil (a hashing
      failure panics), so the model returns the id alone. */
  function GenerateThreadIDHash(hash: Hasher, u1: string, u2: string): (id: string)
    ensures Canonical(id)
    ensures |id| <= 20
    ensures ParseUint(id) == hash(multiset{u1, u2})
  {
    var h := hash(multiset{u1, u2});
    Uint64Width(h);
    ParseFormat(h);
    FormatUint(h)
  }

  /** The id does not depend on which participant comes first. */
  lemma Symmetric(hash: Hasher, a: string, b: string)
    ensures GenerateThreadIDHash(hash, a, b) == GenerateThreadIDHash(hash, b, a)
  {
    assert multiset{a, b} == multiset{b, a};
  }

  /** Two pairs get the same id exactly when their hashes are equal: the
      decimal rendering loses nothing. */
  lemma SameIdIffSameHash(hash: Hasher, a: string, b: string, c: string, d: string)
    ensures GenerateThreadIDHash(hash, a, b) == GenerateThreadIDHash(hash, c, d)
            <==> hash(multiset{a, b}) == hash(multiset{c, d})
  {
    FormatInjective(hash(multiset{a, b}), hash(multiset{c, d}));
  }

  /** The same unordered pair, in either order. */
  predicate SamePair(a: string, b: string, c: string, d: string) {
    (a == c && b == d) || (a == d && b == c)
  }

  lemma SamePairMultiset(a: string, b: string, c: string, d: string)
    ensures SamePair(a, b, c, d) <==> multiset{a, b} == multiset{c, d}
  {
    if multiset{a, b} == multiset{c, d} {
      assert a in multiset{c, d};
      if a == c {
        assert multiset{a, b} - multiset{a} == multiset{c, d} - multiset{c};
      } else {
        assert a == d;
        assert multiset{a, b} - multiset{a} == multiset{c, d} - multiset{d};
      }
    }
  }

  /** Equal pairs always get equal ids. */
  lemma SamePairSameId(hash: Hasher, a: string, b: string, c: string, d: string)
    requires SamePair(a, b, c, d)
    ensures GenerateThreadIDHash(hash, a, b) == GenerateThreadIDHash(hash, c, d)
  {
    SamePairMultiset(a, b, c, d);
  }
}
