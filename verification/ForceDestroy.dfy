/** The loop that empties a bucket before a forced deletion. */
module ForceDestroy {
  import opened Common
  import opened Errors

  /** An object version or a delete marker. */
  datatype Entry = Entry(key: string, versionID: string, marker: bool)

  datatype Page = Page(versions: seq<Entry>, markers: seq<Entry>, truncated: bool)

  /** What goes wrong in one iteration; a delete that is refused or lost may have removed some entries. */
  datatype Fault =
    | Fine
    | Cancelled(error: Error)
    | ListFails(error: Error)
    | DeleteFails(error: Error, removed: set<Entry>)
    | EntriesFail(removed: set<Entry>)

  const PAGE_LIMIT := 1000

  function Listed(p: Page): set<Entry> {
    set e | e in p.versions + p.markers
  }

  /** A listing names existing entries, once each. */
  predicate Existing(p: Page, contents: set<Entry>) {
    Listed(p) <= contents && |p.versions| + |p.markers| == |Listed(p)|
  }

  /** Service contract: a page is empty only for an empty bucket, and complete unless it is truncated. */
  predicate Honest(p: Page, contents: set<Entry>) {
    (contents != {} ==> Listed(p) != {}) && (!p.truncated ==> Listed(p) == contents)
  }

  /** The service fills every page up to 1000 entries. */
  predicate Full(p: Page, contents: set<Entry>) {
    && |Listed(p)| == (if |contents| < 1000 then |contents| else 1000)
    && (p.truncated ==> |contents| > 1000)
  }

  lemma CardinalityOfRest(a: set<Entry>, b: set<Entry>)
    requires b <= a
    ensures |a - b| == |a| - |b|
  {
    assert a == (a - b) + b;
  }

  /**
   * deleteAllBucketObjects. The listings and the faults are chosen by the environment; nobody
   * writes to the bucket meanwhile. The results are the entries that remain, the calls made, and
   * the last listing with the contents it was taken from. The loop ends whatever the service lists.
   */
  method DeleteAllBucketObjects(start: set<Entry>, list: (nat, set<Entry>) -> Page, faults: nat -> Fault)
    returns (err: Option<Error>, remaining: set<Entry>, lists: nat, deletes: nat, last: Page, seen: set<Entry>)
    requires forall n, c :: Existing(list(n, c), c)
    ensures remaining <= start
    ensures err.None? ==> (remaining == {} <==> Listed(last) == seen) && exists n :: last == list(n, seen)
    ensures err.None? && (forall n, c :: Honest(list(n, c), c)) ==> remaining == {}
    ensures (forall n :: faults(n).Fine?) ==> err.None?
    ensures (forall n :: faults(n).Fine?) && (forall n, c :: Honest(list(n, c), c) && Full(list(n, c), c)) ==>
              lists == |start| / 1000 + 1 && deletes == (|start| + 999) / 1000
  {
    last, seen := Page([], [], false), start;
    remaining, lists, deletes := start, 0, 0;
    while true
      invariant remaining <= start
      invariant (forall n, c :: Honest(list(n, c), c) && Full(list(n, c), c)) ==>
                  |start| == |remaining| + PAGE_LIMIT * lists && deletes == lists
      decreases |remaining|
    {
      var fault := faults(lists);
      if fault.Cancelled? {
        return Some(fault.error), remaining, lists, deletes, last, seen;
      }
      var output := list(lists, remaining);
      last, seen, lists := output, remaining, lists + 1;
      if fault.ListFails? {
        return Some(Wrap(fault.error)), remaining, lists, deletes, last, seen;
      }
      var objects: seq<Entry> := [];
      for i := 0 to |output.versions|
        invariant objects == output.versions[..i]
      {
        objects := objects + [output.versions[i]];
      }
      assert output.versions[..|output.versions|] == output.versions;
      for i := 0 to |output.markers|
        invariant objects == output.versions + output.markers[..i]
      {
        objects := objects + [output.markers[i]];
      }
      assert output.markers[..|output.markers|] == output.markers;
      if |objects| == 0 {
        return None, remaining, lists, deletes, last, seen;
      }
      deletes := deletes + 1;
      var page := set e | e in objects;
      assert page == Listed(output);
      if fault.DeleteFails? {
        return Some(Wrap(fault.error)), remaining - page * fault.removed, lists, deletes, last, seen;
      }
      if fault.EntriesFail? {
        return Some(Leaf(Other)), remaining - page * fault.removed, lists, deletes, last, seen;
      }
      CardinalityOfRest(remaining, page);
      remaining := remaining - page;
      if |objects| < PAGE_LIMIT && !output.truncated {
        return None, remaining, lists, deletes, last, seen;
      }
    }
  }
}
