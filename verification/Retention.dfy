/**
 How a server keeps its capture directory within a count and a size, oldest Match first: the plan
 made before a capture is opened or written to, and the directory that replans after each deletion.
 */
module Retention {
  import opened Common

  /** Each limit off when None; a count is at least 1. */
  datatype Limits = Limits(maxFiles: Option<nat>, maxBytes: Option<nat>)

  predicate Allowed(limits: Limits) { limits.maxFiles.Some? ==> limits.maxFiles.value >= 1 }

  function Sum(sizes: seq<nat>): nat {
    if sizes == [] then 0 else sizes[0] + Sum(sizes[1..])
  }

  /** What `total` comes to once `sizes` are taken from it, as far as it goes. */
  function Less(total: nat, size: nat): nat { if size < total then total - size else 0 }

  datatype Plan = Plan(deletions: nat, fits: bool)

  /** Whether, the `k` oldest deleted, `bytes` more (in a new file, when opening) keep both limits. */
  predicate Meets(limits: Limits, sizes: seq<nat>, total: nat, opening: bool, bytes: nat, k: nat)
    requires k <= |sizes|
  {
    && (opening && limits.maxFiles.Some? ==> |sizes| - k + 1 <= limits.maxFiles.value)
    && (limits.maxBytes.Some? ==> Less(total, Sum(sizes[..k])) + bytes <= limits.maxBytes.value)
  }

  /** The least number of deletions, from `k` on, that keeps both limits; all of them when none does. */
  function PlanFrom(limits: Limits, sizes: seq<nat>, total: nat, opening: bool, bytes: nat, k: nat): (p: Plan)
    requires k <= |sizes|
    ensures k <= p.deletions <= |sizes|
    ensures p.fits == Meets(limits, sizes, total, opening, bytes, p.deletions)
    ensures p.fits || p.deletions == |sizes|
    ensures forall j :: k <= j < p.deletions ==> !Meets(limits, sizes, total, opening, bytes, j)
    decreases |sizes| - k
  {
    if Meets(limits, sizes, total, opening, bytes, k) then Plan(k, true)
    else if k == |sizes| then Plan(k, false)
    else PlanFrom(limits, sizes, total, opening, bytes, k + 1)
  }

  function PlanOf(limits: Limits, sizes: seq<nat>, total: nat, opening: bool, bytes: nat): Plan {
    PlanFrom(limits, sizes, total, opening, bytes, 0)
  }

  lemma {:induction false} SumSnoc(sizes: seq<nat>, x: nat)
    ensures Sum(sizes + [x]) == Sum(sizes) + x
  {
    if sizes == [] {
      assert [] + [x] == [x] && [x][1..] == [];
    } else {
      assert (sizes + [x])[1..] == sizes[1..] + [x];
      SumSnoc(sizes[1..], x);
    }
  }

  lemma SumUpTo(sizes: seq<nat>, k: nat)
    requires k < |sizes|
    ensures Sum(sizes[..k + 1]) == Sum(sizes[..k]) + sizes[k]
  {
    assert sizes[..k + 1] == sizes[..k] + [sizes[k]];
    SumSnoc(sizes[..k], sizes[k]);
  }

  /** A plan that is the first to meet the limits is the plan. */
  lemma {:induction false} FirstIsPlan(
    limits: Limits, sizes: seq<nat>, total: nat, opening: bool, bytes: nat, k: nat, p: Plan)
    requires k <= p.deletions <= |sizes|
    requires p.fits == Meets(limits, sizes, total, opening, bytes, p.deletions)
    requires p.fits || p.deletions == |sizes|
    requires forall j :: k <= j < p.deletions ==> !Meets(limits, sizes, total, opening, bytes, j)
    ensures PlanFrom(limits, sizes, total, opening, bytes, k) == p
    decreases |sizes| - k
  {
    if k < p.deletions { FirstIsPlan(limits, sizes, total, opening, bytes, k + 1, p); }
  }

  /** The decision, made with one pass for the count and one for the size. */
  method PlanRetention(limits: Limits, sizes: seq<nat>, total: nat, opening: bool, bytes: nat) returns (plan: Plan)
    requires Allowed(limits)
    ensures plan == PlanOf(limits, sizes, total, opening, bytes)
  {
    var deletions, remaining := 0, total;
    if opening && limits.maxFiles.Some? {
      while |sizes| - deletions >= limits.maxFiles.value
        invariant deletions <= |sizes| && remaining == Less(total, Sum(sizes[..deletions]))
        invariant forall j :: 0 <= j < deletions ==> !Meets(limits, sizes, total, opening, bytes, j)
        decreases |sizes| - deletions
      {
        SumUpTo(sizes, deletions);
        remaining := Less(remaining, sizes[deletions]);
        deletions := deletions + 1;
      }
    }
    if limits.maxBytes.None? {
      FirstIsPlan(limits, sizes, total, opening, bytes, 0, Plan(deletions, true));
      return Plan(deletions, true);
    }
    while remaining + bytes > limits.maxBytes.value && deletions < |sizes|
      invariant deletions <= |sizes| && remaining == Less(total, Sum(sizes[..deletions]))
      invariant opening && limits.maxFiles.Some? ==> |sizes| - deletions < limits.maxFiles.value
      invariant forall j :: 0 <= j < deletions ==> !Meets(limits, sizes, total, opening, bytes, j)
    {
      SumUpTo(sizes, deletions);
      remaining := Less(remaining, sizes[deletions]);
      deletions := deletions + 1;
    }
    plan := Plan(deletions, remaining + bytes <= limits.maxBytes.value);
    FirstIsPlan(limits, sizes, total, opening, bytes, 0, plan);
  }

  lemma MeetsNext(limits: Limits, sizes: seq<nat>, total: nat, opening: bool, bytes: nat, k: nat)
    requires 0 < k <= |sizes|
    ensures Meets(limits, sizes, total, opening, bytes, k)
            == Meets(limits, sizes[1..], Less(total, sizes[0]), opening, bytes, k - 1)
  {
    assert sizes[..k][1..] == sizes[1..][..k - 1];
  }

  /** Once its first deletion is made, a plan's rest is the plan anew. */
  lemma Replanned(limits: Limits, sizes: seq<nat>, total: nat, opening: bool, bytes: nat)
    requires PlanOf(limits, sizes, total, opening, bytes).deletions > 0
    ensures PlanOf(limits, sizes[1..], Less(total, sizes[0]), opening, bytes)
            == var p := PlanOf(limits, sizes, total, opening, bytes); Plan(p.deletions - 1, p.fits)
  {
    var p := PlanOf(limits, sizes, total, opening, bytes);
    MeetsNext(limits, sizes, total, opening, bytes, p.deletions);
    forall j | 0 <= j < p.deletions - 1
      ensures !Meets(limits, sizes[1..], Less(total, sizes[0]), opening, bytes, j)
    {
      MeetsNext(limits, sizes, total, opening, bytes, j + 1);
    }
    FirstIsPlan(limits, sizes[1..], Less(total, sizes[0]), opening, bytes, 0, Plan(p.deletions - 1, p.fits));
  }

  /** With no other files counted, only bytes that outgrow the limit by themselves do not fit. */
  lemma UnfitIff(limits: Limits, sizes: seq<nat>, own: nat, opening: bool, bytes: nat)
    requires Allowed(limits)
    ensures !PlanOf(limits, sizes, Sum(sizes) + own, opening, bytes).fits
            <==> limits.maxBytes.Some? && own + bytes > limits.maxBytes.value
  {
    var p := PlanOf(limits, sizes, Sum(sizes) + own, opening, bytes);
    LessOldest(sizes, own, p.deletions);
    if !p.fits {
      assert p.deletions == |sizes| && sizes[p.deletions..] == [];
    }
  }

  lemma LessOldest(sizes: seq<nat>, own: nat, k: nat)
    requires k <= |sizes|
    ensures Less(Sum(sizes) + own, Sum(sizes[..k])) == Sum(sizes[k..]) + own
  {
    assert sizes == sizes[..k] + sizes[k..];
    SumAppend(sizes[..k], sizes[k..]);
  }

  lemma {:induction false} SumAppend(a: seq<nat>, b: seq<nat>)
    ensures Sum(a + b) == Sum(a) + Sum(b)
  {
    if a == [] {
      assert a + b == b;
    } else {
      assert (a + b)[1..] == a[1..] + b;
      SumAppend(a[1..], b);
    }
  }

  /** The files left once the `k` oldest are deleted, with the one open and `bytes` more, are within both limits. */
  predicate Fits(limits: Limits, sizes: seq<nat>, own: nat, opening: bool, bytes: nat, k: nat)
    requires k <= |sizes|
  {
    && (opening && limits.maxFiles.Some? ==> |sizes[k..]| + 1 <= limits.maxFiles.value)
    && (limits.maxBytes.Some? ==> Sum(sizes[k..]) + own + bytes <= limits.maxBytes.value)
  }

  lemma MeetsIsFits(limits: Limits, sizes: seq<nat>, own: nat, opening: bool, bytes: nat, k: nat)
    requires k <= |sizes|
    ensures Meets(limits, sizes, Sum(sizes) + own, opening, bytes, k) == Fits(limits, sizes, own, opening, bytes, k)
  {
    LessOldest(sizes, own, k);
  }

  /**
   The plan deletes the fewest of the oldest that leave both limits kept, with the one open and its bytes
   counted; when even deleting all leaves them broken it deletes all and does not fit.
   */
  lemma PlanIsLeast(limits: Limits, sizes: seq<nat>, own: nat, opening: bool, bytes: nat)
    ensures var p := PlanOf(limits, sizes, Sum(sizes) + own, opening, bytes);
      && p.deletions <= |sizes| && (p.fits <==> Fits(limits, sizes, own, opening, bytes, p.deletions))
      && (forall k :: 0 <= k < p.deletions ==> !Fits(limits, sizes, own, opening, bytes, k))
      && (!p.fits ==> p.deletions == |sizes|)
  {
    hide Meets, Fits, Sum;
    var p := PlanOf(limits, sizes, Sum(sizes) + own, opening, bytes);
    MeetsIsFits(limits, sizes, own, opening, bytes, p.deletions);
    forall k | 0 <= k < p.deletions ensures !Fits(limits, sizes, own, opening, bytes, k) {
      MeetsIsFits(limits, sizes, own, opening, bytes, k);
    }
  }

  /** One server's capture directory: its completed captures' sizes, oldest first, and what they hold. */
  class CaptureDirectory {
    const limits: Limits
    var completed: seq<nat>
    var deleted: nat
    var total: nat
    var open: bool
    ghost var own: nat  // the bytes of the capture open

    ghost predicate Valid()
      reads this
    {
      && Allowed(limits) && deleted <= |completed|
      && total == Sum(Remaining()) + own
      && (open ==> Within())
    }

    /** Within both limits, the capture open one of the files. */
    ghost predicate Within()
      reads this
      requires deleted <= |completed|
    {
      && (limits.maxFiles.Some? ==> |Remaining()| + 1 <= limits.maxFiles.value)
      && (limits.maxBytes.Some? ==> total <= limits.maxBytes.value)
    }

    function Remaining(): seq<nat>
      reads this
      requires deleted <= |completed|
    {
      completed[deleted..]
    }

    constructor (limits: Limits)
      requires Allowed(limits)
      ensures Valid() && this.limits == limits && Remaining() == [] && !open
    {
      this.limits := limits;
      completed, deleted, total, open, own := [], 0, 0, false, 0;
    }

    method DeleteOldest()
      requires deleted < |completed| && total == Sum(Remaining()) + own
      modifies this`deleted, this`total
      ensures deleted == old(deleted) + 1 && total == Less(old(total), old(Remaining())[0])
      ensures total == Sum(Remaining()) + own
    {
      var oldest := completed[deleted];
      assert Remaining()[0] == oldest && Remaining()[1..] == completed[deleted + 1..];
      deleted := deleted + 1;
      total := Less(total, oldest);
    }

    /** Replans after each deletion, and deletes just what the plan made at first would. */
    method MakeRoom(opening: bool, bytes: nat) returns (fits: bool)
      requires Allowed(limits) && deleted <= |completed| && total == Sum(Remaining()) + own
      modifies this`deleted, this`total
      ensures var plan := PlanOf(limits, old(Remaining()), old(total), opening, bytes);
        deleted == old(deleted) + plan.deletions <= |completed| && fits == plan.fits
      ensures total == Sum(Remaining()) + own
      ensures fits ==> Meets(limits, Remaining(), total, opening, bytes, 0)
    {
      ghost var first := PlanOf(limits, Remaining(), total, opening, bytes);
      while true
        invariant old(deleted) <= deleted <= |completed| && total == Sum(Remaining()) + own
        invariant var p := PlanOf(limits, Remaining(), total, opening, bytes);
                  p.fits == first.fits && deleted - old(deleted) + p.deletions == first.deletions
        decreases |completed| - deleted
      {
        var plan := PlanRetention(limits, Remaining(), total, opening, bytes);
        if plan.deletions == 0 { return plan.fits; }
        Replanned(limits, Remaining(), total, opening, bytes);
        assert Remaining()[1..] == completed[deleted + 1..];
        DeleteOldest();
      }
    }

    /** Before a capture is created: `found` are the directory's others, oldest first, from a scan. */
    method Open(found: seq<nat>, bytes: nat) returns (ok: bool)
      requires Valid()
      modifies this
      ensures Valid() && open == ok
      ensures var plan := PlanOf(limits, found, Sum(found), true, bytes);
        ok == plan.fits && Remaining() == found[plan.deletions..]
      ensures ok <==> (limits.maxBytes.Some? ==> bytes <= limits.maxBytes.value)
      ensures ok ==> total == Sum(Remaining()) + bytes
      ensures ok && limits.maxFiles.Some? ==> |Remaining()| + 1 <= limits.maxFiles.value
      ensures ok && limits.maxBytes.Some? ==> total <= limits.maxBytes.value
    {
      open, completed, deleted, total, own := false, found, 0, 0, 0;
      var i := 0;
      while i < |found|
        invariant i <= |found| && total == Sum(found[..i])
        invariant completed == found && deleted == 0 && own == 0 && !open
      {
        SumUpTo(found, i);
        total := total + found[i];
        i := i + 1;
      }
      assert found[..i] == found && Remaining() == found;
      UnfitIff(limits, found, 0, true, bytes);
      ok := MakeRoom(true, bytes);
      if ok {
        open := true;
        total := total + bytes;
        own := bytes;
      }
    }

    /** Before more is written to the capture open. */
    method Reserve(bytes: nat) returns (ok: bool)
      requires Valid() && open
      modifies this
      ensures Valid() && open
      ensures var plan := PlanOf(limits, old(Remaining()), old(total), false, bytes);
        ok == plan.fits && Remaining() == old(Remaining())[plan.deletions..]
      ensures ok <==> (limits.maxBytes.Some? ==> old(own) + bytes <= limits.maxBytes.value)
      ensures own == if ok then old(own) + bytes else old(own)
      ensures !ok ==> Remaining() == [] && total == own
      ensures total == Sum(Remaining()) + own && (limits.maxBytes.Some? ==> total <= limits.maxBytes.value)
      ensures limits.maxFiles.Some? ==> |Remaining()| + 1 <= limits.maxFiles.value
    {
      UnfitIff(limits, Remaining(), own, false, bytes);
      ok := MakeRoom(false, bytes);
      if ok {
        total := total + bytes;
        own := own + bytes;
      }
    }
  }
}
