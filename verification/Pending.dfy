/**
 Events with one reader each: an event waits under the number of its Match until it is taken by a reader
 who is at that Match, or a later Match or a full queue does away with it.
 */
module Pending {

  datatype Kept<+E> = Kept(match_: nat, event: E)

  /** What became of an event that is kept no more. */
  datatype Fate = Handed | Overflowed | Outdated

  /**
   Every event that arrived, in order, and the fates of those no longer kept, which are always the
   oldest; and everything handed out so far.
   */
  datatype Log<E> = Log(arrived: seq<Kept<E>>, fates: seq<Fate>, given: seq<E>)

  function Empty<E>(): Log<E> { Log([], [], []) }

  function Held<E>(log: Log<E>): seq<Kept<E>>
    requires |log.fates| <= |log.arrived|
  {
    log.arrived[|log.fates|..]
  }

  function Events<E>(kept: seq<Kept<E>>): seq<E> {
    if kept == [] then [] else [kept[0].event] + Events(kept[1..])
  }

  function OfMatch<E>(kept: seq<Kept<E>>, m: nat): seq<Kept<E>> {
    if kept == [] then []
    else (if kept[0].match_ == m then [kept[0]] else []) + OfMatch(kept[1..], m)
  }

  function From<E>(kept: seq<Kept<E>>, m: nat): seq<Kept<E>> {
    if kept == [] then []
    else (if kept[0].match_ >= m then [kept[0]] else []) + From(kept[1..], m)
  }

  predicate InMatchOrder<E>(kept: seq<Kept<E>>) {
    forall i, j :: 0 <= i <= j < |kept| ==> kept[i].match_ <= kept[j].match_
  }

  /** Past the events of earlier Matches lie those of `m` and later: they are at the front. */
  lemma {:induction false} FromIsRest<E>(kept: seq<Kept<E>>, m: nat, n: nat)
    requires n <= |kept| && InMatchOrder(kept)
    requires forall i :: 0 <= i < n ==> kept[i].match_ < m
    requires n < |kept| ==> kept[n].match_ >= m
    ensures From(kept, m) == kept[n..]
  {
    if kept == [] {
    } else if n > 0 {
      FromIsRest(kept[1..], m, n - 1);
      assert kept[1..][n - 1..] == kept[n..];
    } else {
      if |kept| > 1 { assert kept[1].match_ >= m; }
      FromIsRest(kept[1..], m, 0);
      assert kept == [kept[0]] + kept[1..] && kept[1..][0..] == kept[1..];
    }
  }

  /** Of those from `m` on, `m`'s own come first. */
  lemma {:induction false} OfMatchIsFirst<E>(kept: seq<Kept<E>>, m: nat, n: nat)
    requires n <= |kept| && InMatchOrder(kept)
    requires forall i :: 0 <= i < n ==> kept[i].match_ == m
    requires n < |kept| ==> kept[n].match_ > m
    ensures OfMatch(kept, m) == kept[..n] && From(kept, m + 1) == kept[n..]
  {
    if n > 0 {
      OfMatchIsFirst(kept[1..], m, n - 1);
      assert kept[..n] == [kept[0]] + kept[1..][..n - 1];
      assert kept[1..][n - 1..] == kept[n..];
    } else {
      FromIsRest(kept, m + 1, 0);
      NoneOf(kept, m);
      assert kept[0..] == kept;
    }
  }

  lemma {:induction false} NoneOf<E>(kept: seq<Kept<E>>, m: nat)
    requires InMatchOrder(kept) && (kept != [] ==> kept[0].match_ > m)
    ensures OfMatch(kept, m) == []
  {
    if kept != [] { NoneOf(kept[1..], m); }
  }

  lemma {:induction false} OfMatchPast<E>(kept: seq<Kept<E>>, m: nat)
    ensures OfMatch(From(kept, m), m) == OfMatch(kept, m)
    ensures From(From(kept, m), m + 1) == From(kept, m + 1)
  {
    if kept != [] {
      var rest := From(kept[1..], m);
      OfMatchPast(kept[1..], m);
      if kept[0].match_ >= m {
        assert From(kept, m) == [kept[0]] + rest;
        assert ([kept[0]] + rest)[1..] == rest;
      } else {
        assert From(kept, m) == rest;
      }
    }
  }

  lemma {:induction false} EventsSnoc<E>(kept: seq<Kept<E>>, k: Kept<E>)
    ensures Events(kept + [k]) == Events(kept) + [k.event]
  {
    if kept == [] {
      assert [] + [k] == [k] && [k][1..] == [];
    } else {
      assert (kept + [k])[1..] == kept[1..] + [k];
      EventsSnoc(kept[1..], k);
    }
  }

  lemma EventsUpTo<E>(kept: seq<Kept<E>>, n: nat)
    requires n < |kept|
    ensures Events(kept[..n + 1]) == Events(kept[..n]) + [kept[n].event]
  {
    assert kept[..n + 1] == kept[..n] + [kept[n]];
    EventsSnoc(kept[..n], kept[n]);
  }

  lemma Regroup<T>(a: seq<T>, b: seq<T>, c: seq<T>)
    ensures (a + b) + c == a + (b + c)
  {}

  lemma RestOf<T>(s: seq<T>, n: nat)
    requires n < |s|
    ensures s[n..][1..] == s[n + 1..] && s[n..][0] == s[n]
  {}

  /** The events whose fate was to be handed out, in the order they arrived. */
  function HandedOf<E>(arrived: seq<Kept<E>>, fates: seq<Fate>): seq<E>
    requires |fates| <= |arrived|
  {
    if fates == [] then []
    else
      var n := |fates| - 1;
      HandedOf(arrived, fates[..n]) + if fates[n].Handed? then [arrived[n].event] else []
  }

  lemma {:induction false} HandedOfGrown<E>(arrived: seq<Kept<E>>, k: Kept<E>, fates: seq<Fate>)
    requires |fates| <= |arrived|
    ensures HandedOf(arrived + [k], fates) == HandedOf(arrived, fates)
  {
    if fates != [] { HandedOfGrown(arrived, k, fates[..|fates| - 1]); }
  }

  /**
   Each event has one fate or is kept; those handed out were, once each and in the order they arrived;
   one is lost to overflow only once `limit` newer ones came, and to a later Match only once one started.
   */
  ghost predicate Sound<E>(log: Log<E>, limit: nat, started: nat) {
    && |log.fates| <= |log.arrived|
    && InMatchOrder(log.arrived) && (forall i :: 0 <= i < |log.arrived| ==> log.arrived[i].match_ <= started)
    && log.given == HandedOf(log.arrived, log.fates)
    && (forall i :: 0 <= i < |log.fates| && log.fates[i].Overflowed? ==> i + limit < |log.arrived|)
    && (forall i :: 0 <= i < |log.fates| && log.fates[i].Outdated? ==> log.arrived[i].match_ < started)
  }

  /** The oldest kept, kept no more. */
  function Gone<E>(log: Log<E>, fate: Fate): Log<E>
    requires |log.fates| < |log.arrived|
  {
    Log(log.arrived, log.fates + [fate], log.given + if fate.Handed? then [log.arrived[|log.fates|].event] else [])
  }

  lemma GoneSound<E>(log: Log<E>, limit: nat, started: nat, fate: Fate)
    requires Sound(log, limit, started) && |log.fates| < |log.arrived|
    requires fate.Overflowed? ==> |Held(log)| > limit
    requires fate.Outdated? ==> Held(log)[0].match_ < started
    ensures Sound(Gone(log, fate), limit, started)
    ensures Held(Gone(log, fate)) == Held(log)[1..]
  {
    var gone := Gone(log, fate);
    assert gone.fates[..|log.fates|] == log.fates;
    assert log.given + [] == log.given;
  }

  function Arrived<E>(log: Log<E>, k: Kept<E>): Log<E> { log.(arrived := log.arrived + [k]) }

  lemma ArrivedSound<E>(log: Log<E>, limit: nat, k: Kept<E>)
    requires Sound(log, limit, k.match_)
    ensures Sound(Arrived(log, k), limit, k.match_)
    ensures Held(Arrived(log, k)) == Held(log) + [k]
  {
    HandedOfGrown(log.arrived, k, log.fates);
  }

  lemma HeldInOrder<E>(log: Log<E>, limit: nat, started: nat)
    requires Sound(log, limit, started)
    ensures InMatchOrder(Held(log)) && forall i :: 0 <= i < |Held(log)| ==> Held(log)[i].match_ <= started
  {}

  /** The events waiting, and the history `log` that they are the end of. */
  class Queue<E> {
    const limit: nat
    var events: seq<Kept<E>>
    ghost var log: Log<E>

    /** `started` is how many Matches the sender of the events has seen start. */
    ghost predicate Valid(started: nat)
      reads this
    {
      |log.fates| <= |log.arrived| && events == Held(log) && |events| <= limit && Sound(log, limit, started)
    }

    constructor (limit: nat)
      ensures Valid(0) && this.limit == limit && log == Empty()
    {
      this.limit := limit;
      events, log := [], Empty();
    }

    method DropBefore(m: nat, ghost started: nat)
      requires Valid(started) && m <= started
      modifies this`events, this`log
      ensures Valid(started) && log.arrived == old(log.arrived) && log.given == old(log.given)
      ensures events == From(old(events), m)
    {
      HeldInOrder(log, limit, started);
      hide Sound;
      ghost var n := 0;
      while events != [] && events[0].match_ < m
        invariant Valid(started) && log.arrived == old(log.arrived) && log.given == old(log.given)
        invariant n <= |old(events)| && events == old(events)[n..]
        invariant forall i :: 0 <= i < n ==> old(events)[i].match_ < m
        decreases |events|
      {
        GoneSound(log, limit, started, Outdated);
        assert log.given + [] == log.given;
        log := Gone(log, Outdated);
        events := events[1..];
        n := n + 1;
      }
      FromIsRest(old(events), m, n);
    }

    /** Keeps `event` as one of Match `m`, the newest its sender has seen start. */
    method Add(m: nat, event: E)
      requires Valid(m)
      modifies this`events, this`log
      ensures Valid(m) && log.arrived == old(log.arrived) + [Kept(m, event)] && log.given == old(log.given)
      ensures var all := From(old(events), m) + [Kept(m, event)];
        events == if |all| > limit then all[1..] else all
    {
      DropBefore(m, m);
      hide Sound;
      ArrivedSound(log, limit, Kept(m, event));
      log := Arrived(log, Kept(m, event));
      events := events + [Kept(m, event)];
      if |events| > limit {
        GoneSound(log, limit, m, Overflowed);
        assert log.given + [] == log.given;
        log := Gone(log, Overflowed);
        events := events[1..];
      }
    }

    method TakeFront(m: nat, ghost started: nat, ghost all: seq<Kept<E>>, ghost n: nat) returns (taken: seq<E>)
      requires Valid(started) && events == all && n <= |all|
      requires forall i :: 0 <= i < n ==> all[i].match_ == m
      requires n < |all| ==> all[n].match_ != m
      modifies this`events, this`log
      ensures Valid(started) && log.arrived == old(log.arrived) && log.given == old(log.given) + taken
      ensures taken == Events(all[..n]) && events == all[n..]
    {
      hide Sound, HandedOf;
      ghost var i := 0;
      taken := [];
      assert all[..0] == [];
      while events != [] && events[0].match_ == m
        invariant Valid(started) && log.arrived == old(log.arrived) && log.given == old(log.given) + taken
        invariant i <= n && events == all[i..] && taken == Events(all[..i])
        decreases |events|
      {
        EventsUpTo(all, i);
        RestOf(all, i);
        GoneSound(log, limit, started, Handed);
        Regroup(old(log.given), taken, [events[0].event]);
        log := Gone(log, Handed);
        taken := taken + [events[0].event];
        events := events[1..];
        i := i + 1;
      }
    }

    /** Every event kept of Match `m`, oldest first: none of it is kept after, nor of an earlier one. */
    method Take(m: nat, ghost started: nat) returns (taken: seq<E>)
      requires Valid(started) && m <= started
      modifies this`events, this`log
      ensures Valid(started) && log.arrived == old(log.arrived) && log.given == old(log.given) + taken
      ensures taken == Events(OfMatch(old(events), m)) && events == From(old(events), m + 1)
    {
      DropBefore(m, started);
      HeldInOrder(log, limit, started);
      OfMatchPast(old(events), m);
      AllFrom(old(events), m);
      ghost var n := Leading(events, m);
      OfMatchIsFirst(events, m, n);
      taken := TakeFront(m, started, events, n);
    }
  }

  /** How many of `kept`, all of `m` or later, are of `m`. */
  ghost function Leading<E>(kept: seq<Kept<E>>, m: nat): (n: nat)
    requires InMatchOrder(kept) && forall i :: 0 <= i < |kept| ==> kept[i].match_ >= m
    ensures n <= |kept| && (forall i :: 0 <= i < n ==> kept[i].match_ == m)
    ensures n < |kept| ==> kept[n].match_ > m
  {
    if kept == [] || kept[0].match_ != m then 0 else 1 + Leading(kept[1..], m)
  }

  lemma {:induction false} AllFrom<E>(kept: seq<Kept<E>>, m: nat)
    ensures forall i :: 0 <= i < |From(kept, m)| ==> From(kept, m)[i].match_ >= m
  {
    if kept != [] { AllFrom(kept[1..], m); }
  }
}
