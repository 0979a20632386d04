/**
 What pruning a package of the registry keeps and deletes: of a container, the closure of its roots
 under what an index names and what refers to a manifest by tag; of a binary cache, the newest.
 */
module Prune {
  import opened Common

  /** `created` is the push time; timestamps of one format order as the times they write. */
  datatype Version = Version(id: nat, name: string, tags: seq<string>, created: int)

  datatype Root = Root(ref: string, reason: string, required: bool)

  /** The optional roots the package lacks are a set: what orders those of one ref is not modelled. */
  datatype Plan = Plan(keep: seq<Version>, delete: seq<Version>, absent: set<Root>)

  datatype Error = NoRoot(root: Root) | Unreadable(digest: string)

  /** The digests a manifest's index names, none for another kind; None when it cannot be read. */
  type Reader = string -> Option<seq<string>>

  datatype Package = Package(known: set<string>, byTag: map<string, string>, read: Reader)

  // A package's tags.

  function Tagged(byTag: map<string, string>, tags: seq<string>, name: string): map<string, string>
    decreases |tags|
  {
    if tags == [] then byTag
    else Tagged(byTag, tags[..|tags| - 1], name)[tags[|tags| - 1] := name]
  }

  /** Which version each tag is on: the last listed, should two have it. */
  function ByTag(versions: seq<Version>): map<string, string>
    decreases |versions|
  {
    if versions == [] then map[]
    else
      var last := versions[|versions| - 1];
      Tagged(ByTag(versions[..|versions| - 1]), last.tags, last.name)
  }

  lemma {:induction false} TaggedHas(byTag: map<string, string>, tags: seq<string>, name: string, tag: string)
    ensures tag in tags ==> tag in Tagged(byTag, tags, name) && Tagged(byTag, tags, name)[tag] == name
    ensures tag !in tags ==> (tag in Tagged(byTag, tags, name) <==> tag in byTag)
    ensures tag !in tags && tag in byTag ==> Tagged(byTag, tags, name)[tag] == byTag[tag]
    decreases |tags|
  {
    if tags != [] {
      TaggedHas(byTag, tags[..|tags| - 1], name, tag);
      assert tags == tags[..|tags| - 1] + [tags[|tags| - 1]];
    }
  }

  /** No tag is on two versions. */
  predicate OneVersionToATag(versions: seq<Version>) {
    forall i, j :: 0 <= i < |versions| && 0 <= j < |versions|
                   && (exists tag :: tag in versions[i].tags && tag in versions[j].tags)
      ==> versions[i].name == versions[j].name
  }

  lemma {:induction false} ByTagFinds(versions: seq<Version>, i: nat, tag: string)
    requires OneVersionToATag(versions) && i < |versions| && tag in versions[i].tags
    ensures tag in ByTag(versions) && ByTag(versions)[tag] == versions[i].name
    decreases |versions|
  {
    var before, last := versions[..|versions| - 1], versions[|versions| - 1];
    TaggedHas(ByTag(before), last.tags, last.name, tag);
    if tag !in last.tags { ByTagFinds(before, i, tag); }
  }

  /** A tag finds the last listed of the versions it is on, and nothing exactly when it is on none. */
  lemma {:induction false} ByTagIsLast(versions: seq<Version>, tag: string)
    ensures tag in ByTag(versions) <==> exists i :: 0 <= i < |versions| && tag in versions[i].tags
    ensures tag in ByTag(versions) ==> exists i :: 0 <= i < |versions| && LastWith(versions, tag, i)
                                                   && versions[i].name == ByTag(versions)[tag]
    decreases |versions|
  {
    if versions != [] {
      var n := |versions| - 1;
      var before, last := versions[..n], versions[n];
      TaggedHas(ByTag(before), last.tags, last.name, tag);
      ByTagIsLast(before, tag);
      if tag in last.tags {
        assert LastWith(versions, tag, n);
      } else if tag in ByTag(before) {
        var i :| 0 <= i < n && LastWith(before, tag, i) && before[i].name == ByTag(before)[tag];
        assert LastWith(versions, tag, i);
      }
    }
  }

  predicate LastWith(versions: seq<Version>, tag: string, i: nat) {
    && i < |versions| && tag in versions[i].tags
    && forall j :: i < j < |versions| ==> tag !in versions[j].tags
  }

  const SUFFIXES := ["", ".sig", ".att", ".sbom"]
  const SHA256 := "sha256:"

  function HexOf(digest: string): string { if SHA256 <= digest then digest[|SHA256|..] else digest }

  function ReferrerTag(digest: string, suffix: string): string { "sha256-" + HexOf(digest) + suffix }

  predicate Refers(p: Package, digest: string, suffix: string) {
    var tag := ReferrerTag(digest, suffix);
    tag in p.byTag && p.byTag[tag] != ""
  }

  function Children(p: Package, digest: string): seq<string> {
    var manifest := p.read(digest);
    if manifest.Some? then manifest.value else []
  }

  /** What keeping `digest` needs kept: what its index names, and what refers to it. */
  function Needs(p: Package, digest: string): set<string> {
    (set child | child in Children(p, digest))
    + (set suffix | suffix in SUFFIXES && Refers(p, digest, suffix) :: p.byTag[ReferrerTag(digest, suffix)])
  }

  predicate TaggedAs(p: Package, tag: string, name: string) { tag in p.byTag && p.byTag[tag] == name }

  /** The list read for `digest` names `needed`, or one of the four tags that refer to it is on `needed`. */
  predicate UsedBy(p: Package, digest: string, needed: string) {
    || (p.read(digest).Some? && needed in p.read(digest).value)
    || (needed != "" && var hex := if "sha256:" <= digest then digest[7..] else digest;
          || TaggedAs(p, "sha256-" + hex, needed)
          || TaggedAs(p, "sha256-" + hex + ".sig", needed)
          || TaggedAs(p, "sha256-" + hex + ".att", needed)
          || TaggedAs(p, "sha256-" + hex + ".sbom", needed))
  }

  lemma NeedsAreUsed(p: Package, digest: string, needed: string)
    ensures needed in Needs(p, digest) <==> UsedBy(p, digest, needed)
  {
    var hex := if "sha256:" <= digest then digest[7..] else digest;
    assert HexOf(digest) == hex;
    assert ReferrerTag(digest, "") == "sha256-" + hex;
    SuffixesAre();
    ReferrerIsNeeded(p, digest, "", needed);
    ReferrerIsNeeded(p, digest, ".sig", needed);
    ReferrerIsNeeded(p, digest, ".att", needed);
    ReferrerIsNeeded(p, digest, ".sbom", needed);
  }

  lemma ReferrerIsNeeded(p: Package, digest: string, suffix: string, needed: string)
    requires suffix in SUFFIXES
    ensures needed != "" && TaggedAs(p, ReferrerTag(digest, suffix), needed) ==> needed in Needs(p, digest)
  {
    if needed != "" && TaggedAs(p, ReferrerTag(digest, suffix), needed) { assert Refers(p, digest, suffix); }
  }

  lemma SuffixesAre()
    ensures forall suffix :: suffix in SUFFIXES <==> suffix in {"", ".sig", ".att", ".sbom"}
  {
    assert SUFFIXES[0] == "" && SUFFIXES[1] == ".sig" && SUFFIXES[2] == ".att" && SUFFIXES[3] == ".sbom";
  }

  // The closure, one ring of needs after another.

  function Grown(p: Package, kept: set<string>): set<string> {
    kept + (set digest, needed | digest in kept && needed in Needs(p, digest) && needed in p.known :: needed)
  }

  predicate Closed(p: Package, kept: set<string>) {
    forall digest, needed :: digest in kept && needed in Needs(p, digest) && needed in p.known ==> needed in kept
  }

  function Closure(p: Package, kept: set<string>): (closure: set<string>)
    requires kept <= p.known
    decreases |p.known - kept|
  {
    var more := Grown(p, kept);
    if more == kept then kept else
      Shrinks(p.known, kept, more);
      Closure(p, more)
  }

  lemma Shrinks(known: set<string>, kept: set<string>, more: set<string>)
    requires kept < more <= known
    ensures |known - more| < |known - kept|
  {
    var extra :| extra in more && extra !in kept;
    assert known - more < known - kept;
    Smaller(known - more, known - kept);
  }

  lemma {:induction false} Smaller(a: set<string>, b: set<string>)
    requires a < b
    ensures |a| < |b|
    decreases |b|
  {
    var rest := b - a;
    assert b == a + rest && a !! rest;
    assert rest != {};
  }

  /** The closure is the least closed set that holds `kept`: any other holds all of it. */
  lemma {:induction false} ClosureIsLeast(p: Package, kept: set<string>)
    requires kept <= p.known
    ensures kept <= Closure(p, kept) <= p.known && Closed(p, Closure(p, kept))
    ensures forall other :: kept <= other && Closed(p, other) ==> Closure(p, kept) <= other
    decreases |p.known - kept|
  {
    hide Needs;
    var more := Grown(p, kept);
    if more == kept {
      ClosedAsItIs(p, kept);
    } else {
      Shrinks(p.known, kept, more);
      ClosureIsLeast(p, more);
    }
  }

  lemma ClosedAsItIs(p: Package, kept: set<string>)
    requires Grown(p, kept) == kept
    ensures Closed(p, kept)
  {
    hide Needs;
    forall digest, needed | digest in kept && needed in Needs(p, digest) && needed in p.known
      ensures needed in kept
    {
      assert needed in Grown(p, kept);
    }
  }

  // The roots.

  function DigestOf(p: Package, root: Root): string { if root.ref in p.byTag then p.byTag[root.ref] else root.ref }

  predicate Present(p: Package, root: Root) { DigestOf(p, root) in p.known }

  /** The first required root the package lacks. */
  function Missing(p: Package, roots: seq<Root>): (root: Option<Root>)
    ensures root.None? <==> forall r :: r in roots && r.required ==> Present(p, r)
    ensures root.Some? ==> root.value in roots && root.value.required && !Present(p, root.value)
  {
    if roots == [] then None
    else if roots[0].required && !Present(p, roots[0]) then Some(roots[0])
    else Missing(p, roots[1..])
  }

  predicate Recent(version: Version, since: Option<int>) { since.Some? && version.created >= since.value }

  function PackageOf(versions: seq<Version>, read: Reader): Package {
    Package(set v | v in versions :: v.name, ByTag(versions), read)
  }

  /** What the closure starts from: the versions pushed of late, and the roots the package has. */
  function Seeds(p: Package, versions: seq<Version>, roots: seq<Root>, since: Option<int>): set<string> {
    (set v | v in versions && Recent(v, since) :: v.name)
    + (set r | r in roots && Present(p, r) :: DigestOf(p, r))
  }

  // Ordered lists.

  ghost predicate Order(leq: (Version, Version) -> bool) {
    && (forall a, b :: leq(a, b) || leq(b, a))
    && (forall a, b, c :: leq(a, b) && leq(b, c) ==> leq(a, c))
  }

  predicate Sorted(xs: seq<Version>, leq: (Version, Version) -> bool) {
    forall i, j :: 0 <= i < j < |xs| ==> leq(xs[i], xs[j])
  }

  function Insert(x: Version, xs: seq<Version>, leq: (Version, Version) -> bool): seq<Version> {
    if xs == [] || leq(x, xs[0]) then [x] + xs else [xs[0]] + Insert(x, xs[1..], leq)
  }

  /** A stable sort. */
  function Sort(xs: seq<Version>, leq: (Version, Version) -> bool): seq<Version> {
    if xs == [] then [] else Insert(xs[0], Sort(xs[1..], leq), leq)
  }

  lemma {:induction false} InsertKeeps(x: Version, xs: seq<Version>, leq: (Version, Version) -> bool)
    ensures multiset(Insert(x, xs, leq)) == multiset(xs) + multiset{x}
    ensures |Insert(x, xs, leq)| == |xs| + 1
  {
    if xs == [] || leq(x, xs[0]) {
    } else {
      InsertKeeps(x, xs[1..], leq);
      assert xs == [xs[0]] + xs[1..];
    }
  }

  lemma {:induction false} InsertSorts(x: Version, xs: seq<Version>, leq: (Version, Version) -> bool)
    requires Order(leq) && Sorted(xs, leq)
    ensures Sorted(Insert(x, xs, leq), leq)
  {
    if xs == [] || leq(x, xs[0]) {
    } else {
      InsertSorts(x, xs[1..], leq);
      InsertKeeps(x, xs[1..], leq);
      var rest := Insert(x, xs[1..], leq);
      forall j | 0 <= j < |rest| ensures leq(xs[0], rest[j]) {
        assert rest[j] in multiset(rest);
        assert rest[j] in multiset(xs[1..]) || rest[j] == x;
      }
    }
  }

  lemma {:induction false} SortSorts(xs: seq<Version>, leq: (Version, Version) -> bool)
    requires Order(leq)
    ensures Sorted(Sort(xs, leq), leq)
    ensures multiset(Sort(xs, leq)) == multiset(xs) && |Sort(xs, leq)| == |xs|
  {
    hide Sorted, Order;
    if xs == [] {
      NoneSorted(leq);
    } else {
      SortSorts(xs[1..], leq);
      InsertSorts(xs[0], Sort(xs[1..], leq), leq);
      InsertKeeps(xs[0], Sort(xs[1..], leq), leq);
      assert xs == [xs[0]] + xs[1..];
    }
  }

  lemma NoneSorted(leq: (Version, Version) -> bool)
    ensures Sorted([], leq)
  {}

  predicate NameLeq(a: string, b: string) {
    a == [] || (b != [] && (a[0] < b[0] || (a[0] == b[0] && NameLeq(a[1..], b[1..]))))
  }

  lemma {:induction false} NameLeqTotal(a: string, b: string)
    ensures NameLeq(a, b) || NameLeq(b, a)
    decreases |a|
  {
    if a != [] && b != [] { NameLeqTotal(a[1..], b[1..]); }
  }

  lemma {:induction false} NameLeqChains(a: string, b: string, c: string)
    requires NameLeq(a, b) && NameLeq(b, c)
    ensures NameLeq(a, c)
    decreases |a|
  {
    if a != [] && a[0] == b[0] && b[0] == c[0] { NameLeqChains(a[1..], b[1..], c[1..]); }
  }

  predicate Agree(a: string, b: string, n: nat) {
    n <= |a| && n <= |b| && forall i :: 0 <= i < n ==> a[i] == b[i]
  }

  predicate LowerAt(a: string, b: string, k: nat) { k < |a| && k < |b| && Agree(a, b, k) && a[k] < b[k] }

  /** The order of names: one begins the other, or is lower where they first differ. */
  lemma {:induction false} NameLeqIff(a: string, b: string)
    ensures NameLeq(a, b) <==> Agree(a, b, |a|) || exists k: nat :: LowerAt(a, b, k)
    decreases |a|
  {
    if a != [] && b != [] {
      if a[0] == b[0] {
        NameLeqIff(a[1..], b[1..]);
        AgreeOn(a, b, |a| - 1);
        forall k: nat ensures LowerAt(a, b, k + 1) <==> LowerAt(a[1..], b[1..], k) { AgreeOn(a, b, k); }
        if exists k: nat :: LowerAt(a, b, k) {
          var k: nat :| LowerAt(a, b, k);
          assert LowerAt(a[1..], b[1..], k - 1);
        }
      } else if a[0] < b[0] {
        assert LowerAt(a, b, 0);
      }
    }
  }

  lemma AgreeOn(a: string, b: string, n: nat)
    requires a != [] && b != [] && a[0] == b[0]
    ensures Agree(a, b, n + 1) <==> Agree(a[1..], b[1..], n)
  {
    if Agree(a[1..], b[1..], n) {
      forall i | 0 <= i < n + 1 ensures a[i] == b[i] {
        if i > 0 { assert a[i] == a[1..][i - 1] && b[i] == b[1..][i - 1]; }
      }
    }
  }

  const BY_NAME: (Version, Version) -> bool := (a: Version, b: Version) => NameLeq(a.name, b.name)

  const NEWEST_FIRST: (Version, Version) -> bool :=
    (a: Version, b: Version) => a.created > b.created || (a.created == b.created && a.id >= b.id)

  lemma ByNameIsAnOrder()
    ensures Order(BY_NAME)
  {
    hide NameLeq;
    forall a: Version, b: Version ensures BY_NAME(a, b) || BY_NAME(b, a) { NameLeqTotal(a.name, b.name); }
    forall a: Version, b: Version, c: Version | BY_NAME(a, b) && BY_NAME(b, c) ensures BY_NAME(a, c) {
      NameLeqChains(a.name, b.name, c.name);
    }
  }

  lemma NewestFirstIsAnOrder()
    ensures Order(NEWEST_FIRST)
  {}

  // A container's plan.

  /** The versions of `kept`, or the others, in the order listed. */
  function Those(versions: seq<Version>, kept: set<string>, inside: bool): seq<Version> {
    if versions == [] then []
    else (if (versions[0].name in kept) == inside then [versions[0]] else []) + Those(versions[1..], kept, inside)
  }

  lemma {:induction false} ThoseSplit(versions: seq<Version>, kept: set<string>)
    ensures multiset(Those(versions, kept, true)) + multiset(Those(versions, kept, false)) == multiset(versions)
    ensures forall v :: v in Those(versions, kept, true) ==> v.name in kept
    ensures forall v :: v in Those(versions, kept, false) ==> v.name !in kept
  {
    if versions != [] {
      ThoseSplit(versions[1..], kept);
      assert versions == [versions[0]] + versions[1..];
    }
  }

  function PlanOf(p: Package, versions: seq<Version>, roots: seq<Root>, kept: set<string>): Plan {
    Plan(Sort(Those(versions, kept, true), BY_NAME), Sort(Those(versions, kept, false), BY_NAME),
         set r | r in roots && !Present(p, r))
  }

  predicate Readable(p: Package, kept: set<string>) { forall digest :: digest in kept ==> p.read(digest).Some? }

  /** What the package's plan is: none without every required root, or a manifest kept that cannot be read. */
  predicate Planned(versions: seq<Version>, roots: seq<Root>, read: Reader, since: Option<int>,
                    r: Result<Plan, Error>)
  {
    var p := PackageOf(versions, read);
    var seeds := Seeds(p, versions, roots, since);
    && seeds <= p.known
    && match Missing(p, roots)
       case Some(root) => r == Err(NoRoot(root))
       case None =>
         var kept := Closure(p, seeds);
         if Readable(p, kept) then r == Ok(PlanOf(p, versions, roots, kept))
         else r.Err? && r.error.Unreadable? && r.error.digest in kept && read(r.error.digest).None?
  }

  /** Part way: everything kept is needed, and what it needs is kept or pending. */
  predicate Working(p: Package, seeds: set<string>, kept: set<string>, pending: seq<string>) {
    && seeds <= p.known && kept <= Closure(p, seeds)
    && (forall digest :: digest in seeds ==> digest in kept || digest in pending)
    && (forall digest :: digest in pending && digest in p.known ==> digest in Closure(p, seeds))
    && (forall digest, needed :: digest in kept && needed in Needs(p, digest) && needed in p.known
          ==> needed in kept || needed in pending)
    && Readable(p, kept)
  }

  lemma Skipped(p: Package, seeds: set<string>, kept: set<string>, pending: seq<string>)
    requires pending != [] && Working(p, seeds, kept, pending)
    requires pending[|pending| - 1] in kept || pending[|pending| - 1] !in p.known
    ensures Working(p, seeds, kept, pending[..|pending| - 1])
  {
    hide Needs, Closure;
    assert pending == pending[..|pending| - 1] + [pending[|pending| - 1]];
  }

  lemma Kept(p: Package, seeds: set<string>, kept: set<string>, pending: seq<string>, more: seq<string>)
    requires pending != [] && Working(p, seeds, kept, pending)
    requires pending[|pending| - 1] in p.known && p.read(pending[|pending| - 1]).Some?
    requires forall needed :: needed in more <==> needed in Needs(p, pending[|pending| - 1])
    ensures Working(p, seeds, kept + {pending[|pending| - 1]}, pending[..|pending| - 1] + more)
  {
    hide Needs, Closure;
    assert pending == pending[..|pending| - 1] + [pending[|pending| - 1]];
    ClosureIsLeast(p, seeds);
  }

  lemma AllKept(p: Package, seeds: set<string>, kept: set<string>)
    requires Working(p, seeds, kept, [])
    ensures kept == Closure(p, seeds)
  {
    hide Needs, Closure;
    ClosureIsLeast(p, seeds);
    assert Closed(p, kept);
  }

  /** The digests that refer to `digest` by tag, in the order of the suffixes. */
  method ReferrersOf(p: Package, digest: string) returns (referrers: seq<string>)
    ensures forall r :: r in referrers <==>
              exists k :: 0 <= k < |SUFFIXES| && Refers(p, digest, SUFFIXES[k])
                          && p.byTag[ReferrerTag(digest, SUFFIXES[k])] == r
  {
    hide ReferrerTag;
    referrers := [];
    for i := 0 to |SUFFIXES|
      invariant forall r :: r in referrers <==>
                  exists k :: 0 <= k < i && Refers(p, digest, SUFFIXES[k])
                              && p.byTag[ReferrerTag(digest, SUFFIXES[k])] == r
    {
      var tag := ReferrerTag(digest, SUFFIXES[i]);
      if tag in p.byTag && p.byTag[tag] != "" {
        referrers := referrers + [p.byTag[tag]];
      }
    }
  }

  method NeedsOf(p: Package, digest: string) returns (needed: seq<string>)
    ensures forall n :: n in needed <==> n in Needs(p, digest)
  {
    hide ReferrerTag;
    var referrers := ReferrersOf(p, digest);
    needed := Children(p, digest) + referrers;
    forall n ensures n in needed <==> n in Needs(p, digest) {
      assert n in needed <==> n in Children(p, digest) || n in referrers;
      if n in referrers {
        var k :| 0 <= k < |SUFFIXES| && Refers(p, digest, SUFFIXES[k])
                 && p.byTag[ReferrerTag(digest, SUFFIXES[k])] == n;
        assert SUFFIXES[k] in SUFFIXES;
      }
    }
  }

  lemma SeedsAreKnown(versions: seq<Version>, roots: seq<Root>, read: Reader, since: Option<int>)
    ensures var p := PackageOf(versions, read); Seeds(p, versions, roots, since) <= p.known
  {}

  /** The roots in order, up to the first required one the package lacks; the pending list grows by each present. */
  method Rooted(p: Package, roots: seq<Root>, recent: seq<string>)
    returns (pending: seq<string>, absent: set<Root>, missing: Option<Root>)
    ensures missing == Missing(p, roots)
    ensures missing.None? ==> absent == set r | r in roots && !Present(p, r)
    ensures missing.None? ==> forall digest ::
              digest in pending <==> digest in recent || exists k :: 0 <= k < |roots| && Present(p, roots[k])
                                                                     && DigestOf(p, roots[k]) == digest
  {
    hide DigestOf;
    pending, absent, missing := recent, {}, None;
    assert roots[0..] == roots;
    for i := 0 to |roots|
      invariant Missing(p, roots) == Missing(p, roots[i..])
      invariant absent == set r | r in roots[..i] && !Present(p, r)
      invariant forall digest ::
                  digest in pending <==> digest in recent || exists k :: 0 <= k < i && Present(p, roots[k])
                                                                         && DigestOf(p, roots[k]) == digest
    {
      var digest := DigestOf(p, roots[i]);
      assert roots[i..][1..] == roots[i + 1..];
      assert roots[..i + 1] == roots[..i] + [roots[i]];
      if digest in p.known {
        pending := pending + [digest];
      } else if roots[i].required {
        missing := Some(roots[i]);
        return;
      } else {
        absent := absent + {roots[i]};
      }
    }
    assert roots[..|roots|] == roots && roots[|roots|..] == [];
  }

  /** Plans a container package: the worklist. */
  method PlanContainer(versions: seq<Version>, roots: seq<Root>, read: Reader, since: Option<int>)
    returns (r: Result<Plan, Error>)
    ensures Planned(versions, roots, read, since, r)
  {
    var p := PackageOf(versions, read);
    ghost var seeds := Seeds(p, versions, roots, since);
    SeedsAreKnown(versions, roots, read, since);
    var recent := RecentNames(versions, since);
    var pending, absent, missing := Rooted(p, roots, recent);
    if missing.Some? { return Err(NoRoot(missing.value)); }
    var kept: set<string> := {};
    ghost var closure := Closure(p, seeds);
    Begun(p, seeds, versions, roots, since, recent, pending);
    hide Closure, Seeds, Working, Missing, Present, DigestOf, Recent, ByTag;
    while pending != []
      invariant Working(p, seeds, kept, pending)
      decreases p.known - kept, |pending|
    {
      var digest := pending[|pending| - 1];
      if digest in kept || digest !in p.known {
        Skipped(p, seeds, kept, pending);
        pending := pending[..|pending| - 1];
      } else {
        if read(digest).None? {
          Unread(p, seeds, kept, pending, digest);
          return Err(Unreadable(digest));
        }
        var needed := NeedsOf(p, digest);
        Kept(p, seeds, kept, pending, needed);
        pending := pending[..|pending| - 1] + needed;
        kept := kept + {digest};
      }
    }
    AllKept(p, seeds, kept);
    AllReadable(p, seeds, kept);
    r := Ok(Plan(Sort(Those(versions, kept, true), BY_NAME), Sort(Those(versions, kept, false), BY_NAME), absent));
  }

  lemma Unread(p: Package, seeds: set<string>, kept: set<string>, pending: seq<string>, digest: string)
    requires Working(p, seeds, kept, pending) && digest in pending && digest in p.known && p.read(digest).None?
    ensures digest in Closure(p, seeds) && !Readable(p, Closure(p, seeds))
  {
    hide Closure, Needs;
  }

  lemma AllReadable(p: Package, seeds: set<string>, kept: set<string>)
    requires Working(p, seeds, kept, [])
    ensures Readable(p, kept)
  {
    hide Closure, Needs;
  }

  method RecentNames(versions: seq<Version>, since: Option<int>) returns (names: seq<string>)
    ensures forall name :: name in names <==>
              exists k :: 0 <= k < |versions| && Recent(versions[k], since) && versions[k].name == name
  {
    names := [];
    for i := 0 to |versions|
      invariant forall name :: name in names <==>
                  exists k :: 0 <= k < i && Recent(versions[k], since) && versions[k].name == name
    {
      if since.Some? && versions[i].created >= since.value { names := names + [versions[i].name]; }
    }
  }

  lemma Begun(p: Package, seeds: set<string>, versions: seq<Version>, roots: seq<Root>, since: Option<int>,
              recent: seq<string>, pending: seq<string>)
    requires seeds == Seeds(p, versions, roots, since) && seeds <= p.known
    requires forall name :: name in recent <==>
               exists k :: 0 <= k < |versions| && Recent(versions[k], since) && versions[k].name == name
    requires forall digest ::
               digest in pending <==> digest in recent || exists k :: 0 <= k < |roots| && Present(p, roots[k])
                                                                      && DigestOf(p, roots[k]) == digest
    ensures Working(p, seeds, {}, pending)
  {
    hide Closure, Needs, Present, DigestOf, Recent;
    ClosureIsLeast(p, seeds);
    forall digest ensures digest in seeds <==> digest in pending {
      if digest in pending && digest in recent {
        var k :| 0 <= k < |versions| && Recent(versions[k], since) && versions[k].name == digest;
        assert versions[k] in versions;
      }
      if digest in seeds {
        if v :| v in versions && Recent(v, since) && v.name == digest {
          var k :| 0 <= k < |versions| && versions[k] == v;
        } else {
          var r :| r in roots && Present(p, r) && DigestOf(p, r) == digest;
          var k :| 0 <= k < |roots| && roots[k] == r;
        }
      }
    }
  }

  // What a plan is for.

  /** Kept and deleted are every version listed, each once, and each sorted by name. */
  lemma PlanPartitions(versions: seq<Version>, roots: seq<Root>, read: Reader, since: Option<int>, plan: Plan)
    requires Planned(versions, roots, read, since, Ok(plan))
    ensures multiset(plan.keep) + multiset(plan.delete) == multiset(versions)
    ensures forall k, d :: k in plan.keep && d in plan.delete ==> k.name != d.name
    ensures Sorted(plan.keep, BY_NAME) && Sorted(plan.delete, BY_NAME)
  {
    hide Closure, Those, Sort, Order, Sorted, Seeds, Missing, Readable, PackageOf;
    var p := PackageOf(versions, read);
    var kept := Closure(p, Seeds(p, versions, roots, since));
    ByNameIsAnOrder();
    ThoseSplit(versions, kept);
    SortSorts(Those(versions, kept, true), BY_NAME);
    SortSorts(Those(versions, kept, false), BY_NAME);
    forall k, d | k in plan.keep && d in plan.delete ensures k.name != d.name {
      assert k in multiset(plan.keep) && d in multiset(plan.delete);
    }
  }

  /** Chains of versions the package has, each used by the one before. */
  predicate Leads(p: Package, seeds: set<string>, chain: seq<string>) {
    && chain != [] && chain[0] in seeds
    && forall i :: 0 < i < |chain| ==> UsedBy(p, chain[i - 1], chain[i]) && chain[i] in p.known
  }

  ghost predicate LedTo(p: Package, seeds: set<string>, digest: string) {
    exists chain :: Leads(p, seeds, chain) && chain[|chain| - 1] == digest
  }

  lemma {:induction false} LedIsKept(p: Package, seeds: set<string>, chain: seq<string>)
    requires seeds <= p.known && Leads(p, seeds, chain)
    ensures chain[|chain| - 1] in Closure(p, seeds)
    decreases |chain|
  {
    hide Closure, Needs, UsedBy;
    ClosureIsLeast(p, seeds);
    var n := |chain| - 1;
    if n > 0 {
      LedIsKept(p, seeds, chain[..n]);
      NeedsAreUsed(p, chain[n - 1], chain[n]);
    }
  }

  lemma LedOn(p: Package, seeds: set<string>, digest: string, needed: string)
    requires LedTo(p, seeds, digest) && needed in Needs(p, digest) && needed in p.known
    ensures LedTo(p, seeds, needed)
  {
    hide Needs, UsedBy;
    NeedsAreUsed(p, digest, needed);
    var chain :| Leads(p, seeds, chain) && chain[|chain| - 1] == digest;
    assert Leads(p, seeds, chain + [needed]);
  }

  lemma LedToIsKept(p: Package, seeds: set<string>, digest: string)
    requires seeds <= p.known && LedTo(p, seeds, digest)
    ensures digest in Closure(p, seeds)
  {
    hide Closure, Needs, UsedBy;
    var chain :| Leads(p, seeds, chain) && chain[|chain| - 1] == digest;
    LedIsKept(p, seeds, chain);
  }

  /** The closure is just what some chain of uses leads to from a root. */
  lemma ClosureIsLedTo(p: Package, seeds: set<string>, digest: string)
    requires seeds <= p.known
    ensures digest in Closure(p, seeds) <==> LedTo(p, seeds, digest)
  {
    hide Closure, Needs, LedTo;
    ClosureIsLeast(p, seeds);
    if LedTo(p, seeds, digest) { LedToIsKept(p, seeds, digest); }
    ghost var led := set d | d in p.known && LedTo(p, seeds, d);
    forall d | d in seeds ensures d in led { SeedLeads(p, seeds, d); }
    forall d, needed | d in led && needed in Needs(p, d) && needed in p.known ensures needed in led {
      LedOn(p, seeds, d, needed);
    }
    assert Closed(p, led) && seeds <= led;
  }

  lemma SeedLeads(p: Package, seeds: set<string>, digest: string)
    requires digest in seeds
    ensures LedTo(p, seeds, digest)
  {
    var chain := [digest];
    assert Leads(p, seeds, chain) && chain[|chain| - 1] == digest;
  }

  predicate Listed(versions: seq<Version>, name: string) { exists v :: v in versions && v.name == name }

  predicate PushedSince(versions: seq<Version>, since: Option<int>, name: string) {
    since.Some? && exists v :: v in versions && v.name == name && v.created >= since.value
  }

  /** The root is the version its ref is a tag of, or else the one it names. */
  predicate RootIs(versions: seq<Version>, root: Root, name: string) {
    var tags := ByTag(versions);
    if root.ref in tags then name == tags[root.ref] else name == root.ref
  }

  predicate IsARoot(versions: seq<Version>, roots: seq<Root>, name: string) {
    Listed(versions, name) && exists root :: root in roots && RootIs(versions, root, name)
  }

  /** From a version pushed of late, or a root's, each version listed and used by the one before, to `name`. */
  predicate ChainTo(versions: seq<Version>, roots: seq<Root>, read: Reader, since: Option<int>,
                    chain: seq<string>, name: string)
  {
    && chain != [] && chain[|chain| - 1] == name
    && (PushedSince(versions, since, chain[0]) || IsARoot(versions, roots, chain[0]))
    && forall i :: 0 < i < |chain| ==>
         UsedBy(PackageOf(versions, read), chain[i - 1], chain[i]) && Listed(versions, chain[i])
  }

  ghost predicate Reached(versions: seq<Version>, roots: seq<Root>, read: Reader, since: Option<int>, name: string) {
    exists chain :: ChainTo(versions, roots, read, since, chain, name)
  }

  lemma SeedsAre(versions: seq<Version>, roots: seq<Root>, read: Reader, since: Option<int>, name: string)
    ensures name in Seeds(PackageOf(versions, read), versions, roots, since) <==>
              PushedSince(versions, since, name) || IsARoot(versions, roots, name)
  {
    hide ByTag;
    var p := PackageOf(versions, read);
    if IsARoot(versions, roots, name) {
      var root :| root in roots && RootIs(versions, root, name);
      assert DigestOf(p, root) == name && Present(p, root);
    }
    if PushedSince(versions, since, name) {
      var v :| v in versions && v.name == name && v.created >= since.value;
      assert Recent(v, since);
    }
  }

  lemma ReachedIsLedTo(versions: seq<Version>, roots: seq<Root>, read: Reader, since: Option<int>, name: string)
    ensures var p := PackageOf(versions, read);
            Reached(versions, roots, read, since, name) <==> LedTo(p, Seeds(p, versions, roots, since), name)
  {
    hide Seeds, UsedBy, PushedSince, IsARoot, ByTag;
    var p := PackageOf(versions, read);
    var seeds := Seeds(p, versions, roots, since);
    forall chain ensures ChainTo(versions, roots, read, since, chain, name) <==>
                           Leads(p, seeds, chain) && chain[|chain| - 1] == name
    {
      if chain != [] { SeedsAre(versions, roots, read, since, chain[0]); }
    }
  }

  /** What a plan keeps is every version some chain of uses leads to from a root or from one pushed of late. */
  lemma KeptIsLedTo(versions: seq<Version>, roots: seq<Root>, read: Reader, since: Option<int>, plan: Plan,
                    version: Version)
    requires Planned(versions, roots, read, since, Ok(plan))
    ensures version in plan.keep <==>
              version in versions && Reached(versions, roots, read, since, version.name)
    ensures version in plan.delete <==>
              version in versions && !Reached(versions, roots, read, since, version.name)
  {
    var p := PackageOf(versions, read);
    var seeds := Seeds(p, versions, roots, since);
    var kept := Closure(p, seeds);
    assert plan == PlanOf(p, versions, roots, kept) && seeds <= p.known;
    hide Closure, Those, Sort, Needs, Sorted, Order, ByTag, Seeds, PackageOf, Reached, LedTo;
    ClosureIsLedTo(p, seeds, version.name);
    ReachedIsLedTo(versions, roots, read, since, version.name);
    ThoseSplit(versions, kept);
    ByNameIsAnOrder();
    SortSorts(Those(versions, kept, true), BY_NAME);
    SortSorts(Those(versions, kept, false), BY_NAME);
    assert multiset(plan.keep) + multiset(plan.delete) == multiset(versions);
    assert version in plan.keep <==> version in multiset(plan.keep);
    assert version in plan.delete <==> version in multiset(plan.delete);
    assert version in versions <==> version in multiset(versions);
    assert version in plan.keep <==> version in Those(versions, kept, true);
    assert version in plan.delete <==> version in Those(versions, kept, false);
  }

  /**
   A plan can be made exactly when every required root is listed, and every manifest that a chain of uses
   leads to can be read.
   */
  lemma PlannedIff(versions: seq<Version>, roots: seq<Root>, read: Reader, since: Option<int>)
    ensures (exists plan :: Planned(versions, roots, read, since, Ok(plan))) <==>
      && (forall root, name :: root in roots && root.required && RootIs(versions, root, name)
            ==> Listed(versions, name))
      && (forall name :: Reached(versions, roots, read, since, name) ==> read(name).Some?)
  {
    hide Closure, Seeds, PlanOf, LedTo, Reached, ByTag;
    var p := PackageOf(versions, read);
    var seeds := Seeds(p, versions, roots, since);
    SeedsAreKnown(versions, roots, read, since);
    forall name ensures name in Closure(p, seeds) <==> Reached(versions, roots, read, since, name) {
      ClosureIsLedTo(p, seeds, name);
      ReachedIsLedTo(versions, roots, read, since, name);
    }
    forall root: Root
      ensures Present(p, root) <==> forall name :: RootIs(versions, root, name) ==> Listed(versions, name)
    {
      assert RootIs(versions, root, DigestOf(p, root));
    }
    if Missing(p, roots).None? && Readable(p, Closure(p, seeds)) {
      assert Planned(versions, roots, read, since, Ok(PlanOf(p, versions, roots, Closure(p, seeds))));
    }
  }

  /** The roots a plan reports absent are just those of no version listed, none of which is required. */
  lemma AbsentIff(versions: seq<Version>, roots: seq<Root>, read: Reader, since: Option<int>, plan: Plan, root: Root)
    requires Planned(versions, roots, read, since, Ok(plan))
    ensures root in plan.absent <==>
              root in roots && forall name :: RootIs(versions, root, name) ==> !Listed(versions, name)
    ensures root in plan.absent ==> !root.required
  {
    hide Closure, Seeds, Those, Sort, ByTag, Readable;
    var p := PackageOf(versions, read);
    assert RootIs(versions, root, DigestOf(p, root));
  }

  /** Nothing deleted was pushed of late, is a root's, or is used by anything kept; what is kept was read. */
  lemma DeletedIsUnneeded(versions: seq<Version>, roots: seq<Root>, read: Reader, since: Option<int>, plan: Plan,
                          deleted: Version)
    requires Planned(versions, roots, read, since, Ok(plan)) && deleted in plan.delete
    ensures deleted in versions && (since.Some? ==> deleted.created < since.value)
    ensures forall root :: root in roots ==> !RootIs(versions, root, deleted.name)
    ensures forall kept :: kept in plan.keep ==>
              read(kept.name).Some? && !UsedBy(PackageOf(versions, read), kept.name, deleted.name)
  {
    hide Planned, UsedBy, ByTag, Reached;
    KeptIsLedTo(versions, roots, read, since, plan, deleted);
    assert Listed(versions, deleted.name);
    if PushedSince(versions, since, deleted.name) || IsARoot(versions, roots, deleted.name) {
      ReachedAtOnce(versions, roots, read, since, deleted.name);
    }
    forall kept | kept in plan.keep
      ensures read(kept.name).Some? && !UsedBy(PackageOf(versions, read), kept.name, deleted.name)
    {
      KeptIsLedTo(versions, roots, read, since, plan, kept);
      ReachedIsRead(versions, roots, read, since, plan, kept.name);
      if UsedBy(PackageOf(versions, read), kept.name, deleted.name) {
        ReachedOn(versions, roots, read, since, kept.name, deleted.name);
      }
    }
  }

  lemma ReachedAtOnce(versions: seq<Version>, roots: seq<Root>, read: Reader, since: Option<int>, name: string)
    requires PushedSince(versions, since, name) || IsARoot(versions, roots, name)
    ensures Reached(versions, roots, read, since, name)
  {
    hide UsedBy, PushedSince, IsARoot, Listed;
    assert ChainTo(versions, roots, read, since, [name], name);
  }

  lemma ReachedOn(versions: seq<Version>, roots: seq<Root>, read: Reader, since: Option<int>, name: string,
                  needed: string)
    requires Reached(versions, roots, read, since, name) && Listed(versions, needed)
    requires UsedBy(PackageOf(versions, read), name, needed)
    ensures Reached(versions, roots, read, since, needed)
  {
    hide UsedBy, PushedSince, IsARoot, Listed, PackageOf;
    var chain :| ChainTo(versions, roots, read, since, chain, name);
    assert ChainTo(versions, roots, read, since, chain + [needed], needed);
  }

  lemma ReachedIsRead(versions: seq<Version>, roots: seq<Root>, read: Reader, since: Option<int>, plan: Plan,
                      name: string)
    requires Planned(versions, roots, read, since, Ok(plan)) && Reached(versions, roots, read, since, name)
    ensures read(name).Some?
  {
    hide Closure, Seeds, PlanOf, LedTo, Reached;
    var p := PackageOf(versions, read);
    ClosureIsLedTo(p, Seeds(p, versions, roots, since), name);
    ReachedIsLedTo(versions, roots, read, since, name);
  }

  /** With no tag on two versions, no version deleted carries a root's tag. */
  lemma RootsTagsAreKept(versions: seq<Version>, roots: seq<Root>, read: Reader, since: Option<int>, plan: Plan,
                         deleted: Version, root: Root)
    requires Planned(versions, roots, read, since, Ok(plan)) && OneVersionToATag(versions)
    requires deleted in plan.delete && root in roots
    ensures root.ref !in deleted.tags
  {
    hide Planned, Needs, Recent, Sort, ByTag;
    DeletedIsUnneeded(versions, roots, read, since, plan, deleted);
    PlanPartitions(versions, roots, read, since, plan);
    assert deleted in multiset(plan.delete);
    assert deleted in multiset(versions);
    if root.ref in deleted.tags {
      var i :| 0 <= i < |versions| && versions[i] == deleted;
      ByTagFinds(versions, i, root.ref);
    }
  }

  /**
   No version deleted is in the list read for one kept, or has one of the four tags that refer to one kept.
   Should two versions have that tag, no version deleted is the last listed of them.
   */
  lemma UsedAreKept(versions: seq<Version>, roots: seq<Root>, read: Reader, since: Option<int>, plan: Plan,
                    kept: Version, deleted: Version)
    requires Planned(versions, roots, read, since, Ok(plan)) && kept in plan.keep && deleted in plan.delete
    ensures read(kept.name).Some? && deleted.name !in read(kept.name).value
    ensures var hex := if "sha256:" <= kept.name then kept.name[7..] else kept.name;
            var tags := ByTag(versions);
            deleted.name != "" ==>
              && ("sha256-" + hex in tags ==> tags["sha256-" + hex] != deleted.name)
              && ("sha256-" + hex + ".sig" in tags ==> tags["sha256-" + hex + ".sig"] != deleted.name)
              && ("sha256-" + hex + ".att" in tags ==> tags["sha256-" + hex + ".att"] != deleted.name)
              && ("sha256-" + hex + ".sbom" in tags ==> tags["sha256-" + hex + ".sbom"] != deleted.name)
    ensures var hex := if "sha256:" <= kept.name then kept.name[7..] else kept.name;
            OneVersionToATag(versions) && deleted.name != "" ==>
              && "sha256-" + hex !in deleted.tags && "sha256-" + hex + ".sig" !in deleted.tags
              && "sha256-" + hex + ".att" !in deleted.tags && "sha256-" + hex + ".sbom" !in deleted.tags
  {
    hide Planned, ByTag, OneVersionToATag;
    DeletedIsUnneeded(versions, roots, read, since, plan, deleted);
    if OneVersionToATag(versions) {
      var i :| 0 <= i < |versions| && versions[i] == deleted;
      forall tag | tag in deleted.tags ensures tag in ByTag(versions) && ByTag(versions)[tag] == deleted.name {
        ByTagFinds(versions, i, tag);
      }
    }
  }

  // A binary cache's plan.

  function PlanNuget(versions: seq<Version>, keep: nat): Plan {
    var newest := Sort(versions, NEWEST_FIRST);
    var n := if keep <= |newest| then keep else |newest|;
    Plan(Sort(newest[..n], BY_NAME), Sort(newest[n..], BY_NAME), {})
  }

  lemma SortedAcross(xs: seq<Version>, leq: (Version, Version) -> bool, n: nat, a: Version, b: Version)
    requires Sorted(xs, leq) && n <= |xs| && a in xs[..n] && b in xs[n..]
    ensures leq(a, b)
  {}

  /** As many as asked are kept, where there are as many, and none kept was pushed before one deleted. */
  lemma NugetKeepsTheNewest(versions: seq<Version>, keep: nat)
    ensures var plan := PlanNuget(versions, keep);
            && multiset(plan.keep) + multiset(plan.delete) == multiset(versions)
            && |plan.keep| == (if keep <= |versions| then keep else |versions|)
            && (forall k, d :: k in plan.keep && d in plan.delete ==>
                  k.created > d.created || (k.created == d.created && k.id >= d.id))
  {
    hide Sort, Order, Sorted;
    NewestFirstIsAnOrder();
    ByNameIsAnOrder();
    SortSorts(versions, NEWEST_FIRST);
    var newest := Sort(versions, NEWEST_FIRST);
    var n := if keep <= |newest| then keep else |newest|;
    SortSorts(newest[..n], BY_NAME);
    SortSorts(newest[n..], BY_NAME);
    assert newest == newest[..n] + newest[n..];
    var plan := PlanNuget(versions, keep);
    forall k, d | k in plan.keep && d in plan.delete ensures NEWEST_FIRST(k, d) {
      assert k in multiset(newest[..n]) by { assert k in multiset(plan.keep); }
      assert d in multiset(newest[n..]) by { assert d in multiset(plan.delete); }
      SortedAcross(newest, NEWEST_FIRST, n, k, d);
    }
  }
}
