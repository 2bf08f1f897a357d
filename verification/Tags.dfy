/** The tag list sent to OBS and the tag map read back from it. */
module Tags {
  datatype Tag = Tag(key: string, value: string)

  // ----- The order of sort.Strings -----

  predicate Less(a: string, b: string) {
    b != "" && (a == "" || a[0] < b[0] || (a[0] == b[0] && Less(a[1..], b[1..])))
  }

  lemma {:induction false} LessIsTransitive(a: string, b: string, c: string)
    requires Less(a, b) && Less(b, c)
    ensures Less(a, c)
  {
    if a != "" && a[0] == b[0] && b[0] == c[0] {
      LessIsTransitive(a[1..], b[1..], c[1..]);
    }
  }

  lemma {:induction false} LessIsTotal(a: string, b: string)
    ensures (Less(a, b) || a == b || Less(b, a)) && !(Less(a, b) && Less(b, a))
    ensures a == b ==> !Less(a, b)
  {
    if a != "" && b != "" && a[0] == b[0] {
      LessIsTotal(a[1..], b[1..]);
      assert a == [a[0]] + a[1..] && b == [b[0]] + b[1..];
    }
  }

  predicate Ascending(keys: seq<string>) {
    forall i, j | 0 <= i < j < |keys| :: Less(keys[i], keys[j])
  }

  predicate StrictlySorted(tags: seq<Tag>) {
    forall i, j | 0 <= i < j < |tags| :: Less(tags[i].key, tags[j].key)
  }

  function Elements(s: seq<string>): set<string> {
    set x | x in s
  }

  predicate Distinct(s: seq<string>) {
    forall i, j | 0 <= i < j < |s| :: s[i] != s[j]
  }

  // ----- Reading tags -----

  /** The map that a tag list denotes: a later entry overrides an earlier one. */
  function Fold(tags: seq<Tag>): map<string, string> {
    if tags == [] then map[]
    else
      var last := tags[|tags| - 1];
      Fold(tags[..|tags| - 1])[last.key := last.value]
  }

  /** bucketTags, after the tag set has been read. */
  method BucketTags(output: seq<Tag>) returns (tags: map<string, string>)
    ensures tags == Fold(output) && Denotes(output, tags)
  {
    FoldMeans(output, Fold(output));
    tags := map[];
    for i := 0 to |output|
      invariant tags == Fold(output[..i])
    {
      tags := tags[output[i].key := output[i].value];
      assert output[..i + 1][..i] == output[..i];
    }
    assert output[..|output|] == output;
  }

  // ----- Writing tags -----

  function Insert(keys: seq<string>, k: string): (r: seq<string>)
    requires Ascending(keys) && k !in keys
    ensures Ascending(r) && Elements(r) == Elements(keys) + {k}
  {
    if keys == [] then [k]
    else
      var last := keys[|keys| - 1];
      LessIsTotal(last, k);
      if Less(last, k) then
        assert forall i | 0 <= i < |keys| - 1 :: Less(keys[i], k) by {
          forall i | 0 <= i < |keys| - 1 ensures Less(keys[i], k) { LessIsTransitive(keys[i], last, k); }
        }
        keys + [k]
      else
        var front := Insert(keys[..|keys| - 1], k);
        assert Elements(front + [last]) == Elements(keys) + {k} by {
          assert keys == keys[..|keys| - 1] + [last];
        }
        assert forall i | 0 <= i < |front| :: Less(front[i], last) by {
          forall i | 0 <= i < |front| ensures Less(front[i], last) {
            assert front[i] in Elements(front);
          }
        }
        front + [last]
  }

  method SortStrings(keys: seq<string>) returns (r: seq<string>)
    requires Distinct(keys)
    ensures Ascending(r) && Elements(r) == Elements(keys)
  {
    r := [];
    for i := 0 to |keys|
      invariant Ascending(r) && Elements(r) == Elements(keys[..i])
    {
      assert keys[i] !in keys[..i];
      assert keys[i] !in r by {
        assert keys[i] !in Elements(r);
      }
      r := Insert(r, keys[i]);
      assert keys[..i + 1] == keys[..i] + [keys[i]];
    }
    assert keys[..|keys|] == keys;
  }

  /**
   * tagsFromMap. A Go map is enumerated in an arbitrary order, which is the argument `order`;
   * the result does not depend on it (see CanonicalTags).
   */
  method TagsFromMap(src: map<string, string>, order: seq<string>) returns (tags: seq<Tag>)
    requires Distinct(order) && Elements(order) == src.Keys
    ensures StrictlySorted(tags) && Fold(tags) == src
    ensures Canonical(tags, src)
  {
    var keys: seq<string> := [];
    for i := 0 to |order|
      invariant keys == order[..i]
    {
      keys := keys + [order[i]];
    }
    assert order[..|order|] == order;
    keys := SortStrings(keys);
    assert forall k | k in keys :: k in src by {
      forall k | k in keys ensures k in src { assert k in Elements(keys); }
    }
    tags := [];
    for i := 0 to |keys|
      invariant tags == Pairs(keys[..i], src)
    {
      tags := tags + [Tag(keys[i], src[keys[i]])];
      assert tags == Pairs(keys[..i + 1], src);
    }
    assert keys[..|keys|] == keys;
    FoldPairs(keys, src);
    assert src.Keys == Elements(keys);
    CanonicalMeans(tags, src);
  }

  function Pairs(keys: seq<string>, src: map<string, string>): seq<Tag>
    requires forall k | k in keys :: k in src
  {
    seq(|keys|, i requires 0 <= i < |keys| => Tag(keys[i], src[keys[i]]))
  }

  lemma {:induction false} FoldPairs(keys: seq<string>, src: map<string, string>)
    requires forall k | k in keys :: k in src
    ensures Fold(Pairs(keys, src)) == map k | k in Elements(keys) :: src[k]
  {
    if keys != [] {
      var front := keys[..|keys| - 1];
      FoldPairs(front, src);
      assert Pairs(keys, src)[..|keys| - 1] == Pairs(front, src);
      assert Elements(keys) == Elements(front) + {keys[|keys| - 1]} by {
        assert keys == front + [keys[|keys| - 1]];
      }
    }
  }

  // ----- Determinism -----

  lemma {:induction false} FoldKeys(tags: seq<Tag>)
    ensures Fold(tags).Keys == set t | t in tags :: t.key
  {
    if tags != [] {
      var front, last := tags[..|tags| - 1], tags[|tags| - 1];
      FoldKeys(front);
      assert tags == front + [last];
    }
  }

  lemma {:induction false} KeysBelowLast(tags: seq<Tag>, k: string)
    requires StrictlySorted(tags) && tags != []
    requires k in Fold(tags[..|tags| - 1])
    ensures Less(k, tags[|tags| - 1].key) && k != tags[|tags| - 1].key
  {
    var front := tags[..|tags| - 1];
    FoldKeys(front);
    assert k in Fold(front).Keys;
    var t :| t in front && t.key == k;
    var i :| 0 <= i < |front| && front[i] == t;
    assert tags[i] == t;
    LessIsTotal(k, tags[|tags| - 1].key);
  }

  /** The last key of a sorted list is its greatest, so dropping it drops just that binding. */
  lemma {:induction false} FoldWithoutLast(tags: seq<Tag>)
    requires StrictlySorted(tags) && tags != []
    ensures var last := tags[|tags| - 1];
            last.key in Fold(tags) && Fold(tags)[last.key] == last.value
            && Fold(tags[..|tags| - 1]) == Fold(tags) - {last.key}
            && forall k | k in Fold(tags) :: k == last.key || Less(k, last.key)
  {
    var last := tags[|tags| - 1];
    var front := Fold(tags[..|tags| - 1]);
    forall k | k in front
      ensures Less(k, last.key) && k != last.key
    {
      KeysBelowLast(tags, k);
    }
    assert last.key !in front;
  }

  lemma FoldIsEmpty(tags: seq<Tag>)
    ensures Fold(tags) == map[] <==> tags == []
  {
    if tags != [] {
      assert tags[|tags| - 1].key in Fold(tags);
    }
  }

  /** A map has one strictly sorted tag list, so tagsFromMap is independent of the enumeration. */
  lemma {:induction false} CanonicalTags(a: seq<Tag>, b: seq<Tag>)
    requires StrictlySorted(a) && StrictlySorted(b)
    ensures a == b <==> Fold(a) == Fold(b)
    decreases |a|
  {
    if Fold(a) == Fold(b) {
      FoldIsEmpty(a);
      FoldIsEmpty(b);
      if a != [] && b != [] {
        FoldWithoutLast(a);
        FoldWithoutLast(b);
        var la, lb := a[|a| - 1], b[|b| - 1];
        LessIsTotal(la.key, lb.key);
        CanonicalTags(a[..|a| - 1], b[..|b| - 1]);
        assert a == a[..|a| - 1] + [la] && b == b[..|b| - 1] + [lb];
      }
    }
  }

  /** The sorted key list of a finite set. */
  ghost function SortedKeys(s: set<string>): (r: seq<string>)
    ensures Ascending(r) && Elements(r) == s
  {
    if s == {} then []
    else
      var x :| x in s;
      var rest := SortedKeys(s - {x});
      assert x !in Elements(rest);
      Insert(rest, x)
  }

  /** The tag list that tagsFromMap computes, as a function of the map alone. */
  ghost function TagsOf(m: map<string, string>): (tags: seq<Tag>)
    ensures StrictlySorted(tags) && Fold(tags) == m
  {
    var keys := SortedKeys(m.Keys);
    assert forall k | k in keys :: k in Elements(keys);
    FoldPairs(keys, m);
    Pairs(keys, m)
  }

  // ----- What the order and the denoted map are -----

  /** The order of Go strings: the first difference decides, and a proper prefix comes first. */
  ghost predicate Precedes(a: string, b: string) {
    || (a <= b && a != b)
    || (exists i: nat :: i < |a| && i < |b| && a[..i] == b[..i] && a[i] < b[i])
  }

  lemma {:induction false} LessMeans(a: string, b: string)
    ensures Less(a, b) <==> Precedes(a, b)
  {
    if a != "" && b != "" && a[0] == b[0] {
      LessMeans(a[1..], b[1..]);
      if Precedes(a[1..], b[1..]) {
        if i: nat :| i < |a[1..]| && i < |b[1..]| && a[1..][..i] == b[1..][..i] && a[1..][i] < b[1..][i] {
          assert a[..i + 1] == [a[0]] + a[1..][..i] && b[..i + 1] == [b[0]] + b[1..][..i];
          assert a[i + 1] < b[i + 1];
        }
      }
      if i: nat :| i < |a| && i < |b| && a[..i] == b[..i] && a[i] < b[i] {
        assert i > 0;
        assert a[1..][..i - 1] == a[..i][1..] && b[1..][..i - 1] == b[..i][1..];
        assert a[1..][i - 1] < b[1..][i - 1];
      }
    } else if a != "" && b != "" {
      assert a[..0] == b[..0];
    }
  }

  /** The keys are those of the entries, and of several entries with one key the last counts. */
  ghost predicate Denotes(tags: seq<Tag>, m: map<string, string>) {
    && (forall k :: k in m <==> exists i :: 0 <= i < |tags| && tags[i].key == k)
    && (forall i | 0 <= i < |tags| && (forall j | i < j < |tags| :: tags[j].key != tags[i].key) ::
          tags[i].key in m && m[tags[i].key] == tags[i].value)
  }

  /** The last entry with a key. */
  lemma {:induction false} LastWith(tags: seq<Tag>, k: string) returns (i: nat)
    requires exists j :: 0 <= j < |tags| && tags[j].key == k
    ensures i < |tags| && tags[i].key == k && forall j | i < j < |tags| :: tags[j].key != k
  {
    if tags[|tags| - 1].key == k {
      i := |tags| - 1;
    } else {
      var front := tags[..|tags| - 1];
      var j :| 0 <= j < |tags| && tags[j].key == k;
      assert front[j].key == k;
      i := LastWith(front, k);
    }
  }

  lemma {:induction false} FoldIsDenoted(tags: seq<Tag>)
    ensures Denotes(tags, Fold(tags))
  {
    FoldKeys(tags);
    forall i | 0 <= i < |tags| && (forall j | i < j < |tags| :: tags[j].key != tags[i].key)
      ensures tags[i].key in Fold(tags) && Fold(tags)[tags[i].key] == tags[i].value
    {
      if i < |tags| - 1 {
        var front := tags[..|tags| - 1];
        FoldIsDenoted(front);
        assert front[i] == tags[i];
        assert tags[|tags| - 1].key != tags[i].key;
      }
    }
    forall k ensures k in Fold(tags) <==> exists i :: 0 <= i < |tags| && tags[i].key == k {
      if i :| 0 <= i < |tags| && tags[i].key == k { assert tags[i] in tags; }
    }
  }

  /** A list folds to a map exactly when it denotes it. */
  lemma FoldMeans(tags: seq<Tag>, m: map<string, string>)
    ensures Fold(tags) == m <==> Denotes(tags, m)
  {
    FoldIsDenoted(tags);
    if Denotes(tags, m) {
      forall k | k in m ensures k in Fold(tags) && Fold(tags)[k] == m[k] {
        var i := LastWith(tags, k);
      }
    }
  }

  /** The entries of a map in the order of their keys. */
  ghost predicate Canonical(tags: seq<Tag>, m: map<string, string>) {
    Denotes(tags, m) && forall i, j | 0 <= i < j < |tags| :: Precedes(tags[i].key, tags[j].key)
  }

  lemma CanonicalMeans(tags: seq<Tag>, m: map<string, string>)
    ensures StrictlySorted(tags) && Fold(tags) == m <==> Canonical(tags, m)
  {
    FoldMeans(tags, m);
    forall i, j | 0 <= i < j < |tags| ensures Less(tags[i].key, tags[j].key) <==> Precedes(tags[i].key, tags[j].key) {
      LessMeans(tags[i].key, tags[j].key);
    }
  }
}
