/** The arrays that the asynchronous image loaders of ImageAnimation.ts and
    ImageGallery.ts fill. Each successful load assigns `array[i] = img`; a
    failed load assigns nothing, so the array keeps a hole there, and its
    length is one past the highest slot that was assigned. */
module ImageSlots {
  import opened Wrappers

  /** A loaded image, identified by the path it was loaded from. */
  datatype Image = Image(path: string)

  /** Drops the trailing holes: a JavaScript array is only as long as its
      highest assigned slot. */
  function TrimHoles(slots: seq<Option<Image>>): (r: seq<Option<Image>>)
    ensures |r| <= |slots| && r == slots[..|r|]
    ensures r == [] || r[|r| - 1].Some?
    ensures forall i :: |r| <= i < |slots| ==> slots[i].None?
  {
    if slots == [] then []
    else if slots[|slots| - 1].Some? then slots
    else TrimHoles(slots[..|slots| - 1])
  }

  /** `array[i] = img`: past the end the array grows, with holes in between. */
  function Assign(slots: seq<Option<Image>>, i: nat, img: Image): (r: seq<Option<Image>>)
    ensures |r| == if i < |slots| then |slots| else i + 1
    ensures r[i] == Some(img)
    ensures forall j :: 0 <= j < |r| && j != i ==> r[j] == if j < |slots| then slots[j] else None
  {
    if i < |slots| then slots[i := Some(img)]
    else slots + Holes(i - |slots|) + [Some(img)]
  }

  /** `n` unassigned slots. */
  function Holes(n: nat): (r: seq<Option<Image>>)
    ensures |r| == n && forall k :: 0 <= k < n ==> r[k].None?
  {
    seq(n, _ => None)
  }

  /** An array is its trimmed prefix followed by holes. */
  lemma TrimmedTailIsHoles(slots: seq<Option<Image>>)
    ensures slots == TrimHoles(slots) + Holes(|slots| - |TrimHoles(slots)|)
  {
    var r := TrimHoles(slots);
    var t := r + Holes(|slots| - |r|);
    assert |t| == |slots|;
    forall k | 0 <= k < |slots|
      ensures t[k] == slots[k]
    {
      if k < |r| {
        assert t[k] == r[k];
      } else {
        assert t[k] == Holes(|slots| - |r|)[k - |r|];
      }
    }
  }

  /** `array[i]` read back: undefined for a hole and for any index outside the array. */
  function Get(slots: seq<Option<Image>>, i: int): Option<Image> {
    if 0 <= i < |slots| then slots[i] else None
  }

  /** The array left once the loads of slots 0 .. count-1 have all settled,
      `outcome(i)` saying whether slot `i` loaded. */
  function Filled(count: int, outcome: int -> Option<Image>): seq<Option<Image>> {
    if count <= 0 then [] else TrimHoles(seq(count, outcome))
  }

  /** Reading a settled array gives back exactly the loads that succeeded. */
  lemma FilledReadsBack(count: int, outcome: int -> Option<Image>, i: int)
    ensures Get(Filled(count, outcome), i) == if 0 <= i < count then outcome(i) else None
    ensures |Filled(count, outcome)| <= (if count <= 0 then 0 else count)
  {
    if count > 0 {
      var all := seq(count, outcome);
      var r := TrimHoles(all);
      if 0 <= i < |r| {
        assert r[i] == all[i];
      } else if |r| <= i < count {
        assert all[i].None?;
      }
    }
  }

  /** A successful load on the slot after the settled ones extends the array by it. */
  lemma AssignAfterTrim(slots: seq<Option<Image>>, img: Image)
    ensures Assign(TrimHoles(slots), |slots|, img) == slots + [Some(img)]
  {
    var r := TrimHoles(slots);
    TrimmedTailIsHoles(slots);
    AssignAfterHoles(r, |slots| - |r|, img);
  }

  /** Assigning past a run of holes keeps the holes before the new slot. */
  lemma AssignAfterHoles(r: seq<Option<Image>>, n: nat, img: Image)
    ensures Assign(r, |r| + n, img) == r + Holes(n) + [Some(img)]
  {
  }

  /** Two loads that complete in either order leave the same array: the
      final array does not depend on the order the callbacks run in. */
  lemma AssignCommutes(slots: seq<Option<Image>>, i: nat, a: Image, j: nat, b: Image)
    requires i != j
    ensures Assign(Assign(slots, i, a), j, b) == Assign(Assign(slots, j, b), i, a)
  {
    var x := Assign(Assign(slots, i, a), j, b);
    var y := Assign(Assign(slots, j, b), i, a);
    assert |x| == |y|;
    forall k | 0 <= k < |x|
      ensures x[k] == y[k]
    {
    }
  }

  /** The loading loop for one array: slot `i` is assigned when its load succeeds. */
  method Fill(count: int, outcome: int -> Option<Image>) returns (slots: seq<Option<Image>>)
    ensures slots == Filled(count, outcome)
  {
    slots := [];
    var i := 0;
    while i < count
      invariant 0 <= i <= (if count > 0 then count else 0)
      invariant slots == TrimHoles(seq(i, outcome))
    {
      var prefix := seq(i, outcome);
      assert seq(i + 1, outcome) == prefix + [outcome(i)];
      match outcome(i) {
        case Some(img) =>
          AssignAfterTrim(prefix, img);
          slots := Assign(slots, i, img);
        case None =>
          assert (prefix + [None])[..i] == prefix;
      }
      i := i + 1;
    }
  }
}
