/** The platform selector of the admin header: the list of platforms without repeated ids,
    the rule that hides the selector, and the `isLoading` / `isOpen` state around a switch. */
module PlatformSelector {
  import opened JsValues

  datatype Platform = Platform(id: int, name: string, slug: string, brand: string)

  /** The ids that occur in `ps`. */
  function IdSet(ps: seq<Platform>): set<int>
    decreases |ps|
  {
    if ps == [] then {} else IdSet(ps[..|ps| - 1]) + {ps[|ps| - 1].id}
  }

  /** The id of every platform of `ps` is in `IdSet(ps)`. */
  lemma {:induction false} IdSetHasAll(ps: seq<Platform>)
    ensures forall k :: 0 <= k < |ps| ==> ps[k].id in IdSet(ps)
    decreases |ps|
  {
    if ps != [] {
      var init := ps[..|ps| - 1];
      IdSetHasAll(init);
      assert forall k :: 0 <= k < |ps| - 1 ==> ps[k] == init[k];
    }
  }

  /** No two platforms of `ps` share an id. */
  predicate DistinctIds(ps: seq<Platform>)
  {
    forall i, j :: 0 <= i < j < |ps| ==> ps[i].id != ps[j].id
  }

  /** Reference definition of the de-duplicated list, read from the end: the last platform is
      kept exactly when its id does not occur before it. */
  function FirstOccurrences(ps: seq<Platform>): seq<Platform>
    decreases |ps|
  {
    if ps == [] then []
    else
      var init := ps[..|ps| - 1];
      if ps[|ps| - 1].id in IdSet(init) then FirstOccurrences(init)
      else FirstOccurrences(init) + [ps[|ps| - 1]]
  }

  /** The position of the first platform of `ps` with id `id`. */
  function FirstIndex(ps: seq<Platform>, id: int): (k: nat)
    requires id in IdSet(ps)
    ensures k < |ps| && ps[k].id == id
    ensures forall j :: 0 <= j < k ==> ps[j].id != id
    decreases |ps|
  {
    var init := ps[..|ps| - 1];
    if id in IdSet(init) then
      var k := FirstIndex(init, id);
      assert forall j :: 0 <= j <= k ==> ps[j] == init[j];
      k
    else
      IdSetHasAll(init);
      assert forall j :: 0 <= j < |ps| - 1 ==> ps[j] == init[j];
      |ps| - 1
  }

  /** The `useMemo` filter: walks the platforms once, remembering the ids already seen. */
  method UniqueById(platforms: seq<Platform>) returns (unique: seq<Platform>)
    ensures unique == FirstOccurrences(platforms)
  {
    var seen: set<int> := {};
    unique := [];
    var i := 0;
    while i < |platforms|
      invariant 0 <= i <= |platforms|
      invariant seen == IdSet(platforms[..i])
      invariant unique == FirstOccurrences(platforms[..i])
    {
      var p := platforms[i];
      assert platforms[..i + 1][..i] == platforms[..i];
      if p.id !in seen {
        seen := seen + {p.id};
        unique := unique + [p];
      }
      i := i + 1;
    }
    assert platforms[..i] == platforms;
  }

  /** Appending a platform adds its id. */
  lemma IdSetAppend(ps: seq<Platform>, p: Platform)
    ensures IdSet(ps + [p]) == IdSet(ps) + {p.id}
  {
    assert (ps + [p])[..|ps|] == ps;
  }

  /** Appending a platform with a new id to a list without repeated ids keeps it so. */
  lemma DistinctAppend(r: seq<Platform>, p: Platform)
    requires DistinctIds(r) && p.id !in IdSet(r)
    ensures DistinctIds(r + [p])
  {
    IdSetHasAll(r);
    forall i, j | 0 <= i < j < |r| + 1 ensures (r + [p])[i].id != (r + [p])[j].id {
      if j == |r| {
        assert (r + [p])[i] == r[i];
      } else {
        assert (r + [p])[i] == r[i] && (r + [p])[j] == r[j];
      }
    }
  }

  /** The kept platforms have pairwise distinct ids, and every id of the input is kept. */
  lemma {:induction false} FirstOccurrencesDistinct(ps: seq<Platform>)
    ensures DistinctIds(FirstOccurrences(ps))
    ensures IdSet(FirstOccurrences(ps)) == IdSet(ps)
    decreases |ps|
  {
    if ps != [] {
      var init := ps[..|ps| - 1];
      var last := ps[|ps| - 1];
      FirstOccurrencesDistinct(init);
      if last.id !in IdSet(init) {
        var r := FirstOccurrences(init);
        IdSetAppend(r, last);
        DistinctAppend(r, last);
      }
    }
  }

  /** Every kept platform is the first platform of the input with its id. */
  lemma {:induction false} FirstOccurrencesAreFirst(ps: seq<Platform>)
    ensures forall k :: 0 <= k < |FirstOccurrences(ps)| ==>
      FirstOccurrences(ps)[k].id in IdSet(ps) &&
      FirstOccurrences(ps)[k] == ps[FirstIndex(ps, FirstOccurrences(ps)[k].id)]
    decreases |ps|
  {
    if ps != [] {
      var init := ps[..|ps| - 1];
      var last := ps[|ps| - 1];
      var r := FirstOccurrences(init);
      FirstOccurrencesAreFirst(init);
      forall k | 0 <= k < |r|
        ensures r[k].id in IdSet(ps) && r[k] == ps[FirstIndex(ps, r[k].id)]
      {
        assert ps[FirstIndex(init, r[k].id)] == init[FirstIndex(init, r[k].id)];
      }
      if last.id !in IdSet(init) {
        assert FirstIndex(ps, last.id) == |ps| - 1;
      }
    }
  }

  /** The kept platforms stay in the order in which their ids first occur. */
  lemma {:induction false} FirstOccurrencesInOrder(ps: seq<Platform>)
    ensures forall k :: 0 <= k < |FirstOccurrences(ps)| ==> FirstOccurrences(ps)[k].id in IdSet(ps)
    ensures forall a, b :: 0 <= a < b < |FirstOccurrences(ps)| ==>
      FirstIndex(ps, FirstOccurrences(ps)[a].id) < FirstIndex(ps, FirstOccurrences(ps)[b].id)
    decreases |ps|
  {
    FirstOccurrencesAreFirst(ps);
    if ps != [] {
      var init := ps[..|ps| - 1];
      var last := ps[|ps| - 1];
      var r := FirstOccurrences(init);
      FirstOccurrencesInOrder(init);
      FirstOccurrencesAreFirst(init);
      assert forall k :: 0 <= k < |r| ==> FirstIndex(ps, r[k].id) == FirstIndex(init, r[k].id);
    }
  }

  /** Without repeated ids, de-duplication changes nothing. */
  lemma {:induction false} FirstOccurrencesOfDistinct(ps: seq<Platform>)
    requires DistinctIds(ps)
    ensures FirstOccurrences(ps) == ps
    decreases |ps|
  {
    if ps != [] {
      var init := ps[..|ps| - 1];
      FirstOccurrencesOfDistinct(init);
      if ps[|ps| - 1].id in IdSet(init) {
        var k := FirstIndex(init, ps[|ps| - 1].id);
        assert false;
      }
      assert init + [ps[|ps| - 1]] == ps;
    }
  }

  /** De-duplicating twice is de-duplicating once. */
  lemma FirstOccurrencesIdempotent(ps: seq<Platform>)
    ensures FirstOccurrences(FirstOccurrences(ps)) == FirstOccurrences(ps)
  {
    FirstOccurrencesDistinct(ps);
    FirstOccurrencesOfDistinct(FirstOccurrences(ps));
  }

  /** The selector is drawn only when asked for and there is more than one platform left. */
  predicate ShowsSelector(showSelector: bool, platforms: seq<Platform>)
  {
    showSelector && |FirstOccurrences(platforms)| > 1
  }

  /** There is more than one platform left exactly when two platforms have different ids. */
  lemma ShowsSelectorIff(showSelector: bool, platforms: seq<Platform>)
    ensures ShowsSelector(showSelector, platforms) <==>
      showSelector && exists i, j :: 0 <= i < |platforms| && 0 <= j < |platforms| && platforms[i].id != platforms[j].id
  {
    var u := FirstOccurrences(platforms);
    FirstOccurrencesDistinct(platforms);
    IdSetHasAll(u);
    IdSetHasAll(platforms);
    if |u| > 1 {
      assert u[0].id != u[1].id;
      var i, j := FirstIndex(platforms, u[0].id), FirstIndex(platforms, u[1].id);
    }
    if i, j :| 0 <= i < |platforms| && 0 <= j < |platforms| && platforms[i].id != platforms[j].id {
      var a, b := FirstIndex(u, platforms[i].id), FirstIndex(u, platforms[j].id);
      assert a != b;
    }
  }

  /** The component's state: its props, fixed for one rendering, and the two state hooks. */
  class Selector {
    const platforms: seq<Platform>
    const currentPlatform: Option<Platform>
    const showSelector: bool
    var isLoading: bool
    var isOpen: bool

    /** The menu is never open while a switch is in flight. */
    predicate Valid()
      reads this
    {
      isLoading ==> !isOpen
    }

    constructor(platforms: seq<Platform>, currentPlatform: Option<Platform>, showSelector: bool)
      ensures this.platforms == platforms && this.currentPlatform == currentPlatform
      ensures this.showSelector == showSelector
      ensures !isLoading && !isOpen && Valid()
    {
      this.platforms := platforms;
      this.currentPlatform := currentPlatform;
      this.showSelector := showSelector;
      isLoading := false;
      isOpen := false;
    }

    /** `onOpenChange={setIsOpen}`; the trigger is disabled while loading, so no request to
        open arrives then. */
    method OnOpenChange(open: bool)
      requires Valid()
      modifies this
      ensures Valid()
      ensures isLoading == old(isLoading)
      ensures isOpen == (if open && isLoading then old(isOpen) else open)
    {
      if !(open && isLoading) {
        isOpen := open;
      }
    }

    /** `handlePlatformChange`, up to the call to the switch endpoint: returns the platform id
        to switch to, or `None` when no call is made. */
    method HandlePlatformChange(platformId: int) returns (switchTo: Option<int>)
      requires Valid()
      modifies this
      ensures Valid()
      ensures old(isLoading) || platformId == 0 ==>
        switchTo.None? && isLoading == old(isLoading) && isOpen == old(isOpen)
      ensures !old(isLoading) && platformId != 0 && currentPlatform.Some? && platformId == currentPlatform.value.id ==>
        switchTo.None? && !isLoading && !isOpen
      ensures !old(isLoading) && platformId != 0 && !(currentPlatform.Some? && platformId == currentPlatform.value.id) ==>
        switchTo == Some(platformId) && isLoading && !isOpen
    {
      if isLoading || platformId == 0 {
        return None;
      }
      if currentPlatform.Some? && platformId == currentPlatform.value.id {
        isOpen := false;
        return None;
      }
      isLoading := true;
      isOpen := false;
      switchTo := Some(platformId);
    }

    /** The end of the switch call. On success the page reloads and the selector stays busy;
        on failure `isLoading` is reset. */
    method CompleteSwitch(succeeded: bool)
      requires Valid() && isLoading
      modifies this
      ensures Valid()
      ensures isLoading == succeeded && isOpen == old(isOpen)
    {
      if !succeeded {
        isLoading := false;
      }
    }
  }
}
