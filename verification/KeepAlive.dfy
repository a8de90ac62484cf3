/** Interleaved (TCP) transports pin their session: the list of linked transports of every
    client connection, and the expiry counters of the sessions. */
module KeepAlive {
  import opened SessionTime
  import opened SessionPool

  /** The transport of one stream of one media of a session. */
  datatype Trans = Trans(session: nat, media: nat, stream: nat)

  /** How a stream of a session is carried, if it is set up at all. */
  datatype Kind = Unset | Udp | Tcp

  /** Without the first occurrence. */
  function RemoveFirst(list: seq<Trans>, t: Trans): seq<Trans> {
    if list == [] then [] else if list[0] == t then list[1..] else [list[0]] + RemoveFirst(list[1..], t)
  }

  /** Links every TCP transport of a media of a session, in stream order, to the front of the list. */
  function LinkAll(kinds: seq<Kind>, s: nat, m: nat, list: seq<Trans>): seq<Trans> {
    if kinds == [] then list
    else
      var n := |kinds| - 1;
      var l := LinkAll(kinds[..n], s, m, list);
      if kinds[n] == Tcp then [Trans(s, m, n)] + l else l
  }

  /** Unlinks every TCP transport of a media of a session once. */
  function UnlinkAll(kinds: seq<Kind>, s: nat, m: nat, list: seq<Trans>): seq<Trans> {
    if kinds == [] then list
    else
      var n := |kinds| - 1;
      var l := UnlinkAll(kinds[..n], s, m, list);
      if kinds[n] == Tcp then RemoveFirst(l, Trans(s, m, n)) else l
  }

  function CountTcp(kinds: seq<Kind>): nat {
    if kinds == [] then 0 else CountTcp(kinds[..|kinds| - 1]) + if kinds[|kinds| - 1] == Tcp then 1 else 0
  }

  /** How many TCP transports of the media are not in the list. */
  function Missing(kinds: seq<Kind>, s: nat, m: nat, list: seq<Trans>): nat {
    if kinds == [] then 0
    else
      var n := |kinds| - 1;
      Missing(kinds[..n], s, m, list) + if kinds[n] == Tcp && Trans(s, m, n) !in list then 1 else 0
  }

  /** Entries of a list that belong to a session. */
  function Entries(list: seq<Trans>, s: nat): nat {
    if list == [] then 0 else (if list[0].session == s then 1 else 0) + Entries(list[1..], s)
  }

  lemma {:induction false} EntriesAfterLink(kinds: seq<Kind>, s: nat, m: nat, list: seq<Trans>, u: nat)
    ensures Entries(LinkAll(kinds, s, m, list), u) == Entries(list, u) + if u == s then CountTcp(kinds) else 0
  {
    if kinds != [] {
      var n := |kinds| - 1;
      EntriesAfterLink(kinds[..n], s, m, list, u);
      var l := LinkAll(kinds[..n], s, m, list);
      assert ([Trans(s, m, n)] + l)[1..] == l;
    }
  }

  lemma {:induction false} RemoveFirstFacts(list: seq<Trans>, t: Trans, u: nat)
    ensures Entries(RemoveFirst(list, t), u) == Entries(list, u) - if t in list && t.session == u then 1 else 0
    ensures forall x :: x != t ==> (x in RemoveFirst(list, t) <==> x in list)
  {
    if list != [] {
      assert list == [list[0]] + list[1..];
      RemoveFirstFacts(list[1..], t, u);
      if list[0] != t {
        var r := RemoveFirst(list[1..], t);
        assert ([list[0]] + r)[1..] == r;
      }
    }
  }

  lemma {:induction false} EntriesAfterUnlink(kinds: seq<Kind>, s: nat, m: nat, list: seq<Trans>, u: nat)
    ensures Entries(UnlinkAll(kinds, s, m, list), u)
            == Entries(list, u) - if u == s then CountTcp(kinds) - Missing(kinds, s, m, list) else 0
    ensures forall i :: i >= |kinds| ==> (Trans(s, m, i) in UnlinkAll(kinds, s, m, list) <==> Trans(s, m, i) in list)
  {
    if kinds != [] {
      var n := |kinds| - 1;
      EntriesAfterUnlink(kinds[..n], s, m, list, u);
      RemoveFirstFacts(UnlinkAll(kinds[..n], s, m, list), Trans(s, m, n), u);
    }
  }

  /** Linking adds the TCP transports of the media and nothing else. */
  lemma {:induction false} LinkedExactly(kinds: seq<Kind>, s: nat, m: nat, list: seq<Trans>)
    ensures forall x :: x in LinkAll(kinds, s, m, list) <==>
              x in list || (x.session == s && x.media == m && x.stream < |kinds| && kinds[x.stream] == Tcp)
  {
    if kinds != [] {
      LinkedExactly(kinds[..|kinds| - 1], s, m, list);
    }
  }

  lemma {:induction false} UnlinkBehind(kinds: seq<Kind>, s: nat, m: nat, t: Trans, list: seq<Trans>)
    requires t.stream >= |kinds|
    ensures UnlinkAll(kinds, s, m, [t] + list) == [t] + UnlinkAll(kinds, s, m, list)
  {
    if kinds != [] {
      var n := |kinds| - 1;
      UnlinkBehind(kinds[..n], s, m, t, list);
      assert ([t] + UnlinkAll(kinds[..n], s, m, list))[1..] == UnlinkAll(kinds[..n], s, m, list);
    }
  }

  /** Unlinking what was just linked gives the list back as it was. */
  lemma {:induction false} UnlinkUndoesLink(kinds: seq<Kind>, s: nat, m: nat, list: seq<Trans>)
    ensures UnlinkAll(kinds, s, m, LinkAll(kinds, s, m, list)) == list
  {
    if kinds != [] {
      var n := |kinds| - 1;
      var l := LinkAll(kinds[..n], s, m, list);
      UnlinkUndoesLink(kinds[..n], s, m, list);
      if kinds[n] == Tcp {
        UnlinkBehind(kinds[..n], s, m, Trans(s, m, n), l);
        assert ([Trans(s, m, n)] + list)[1..] == list;
      }
    }
  }

  // ---------- clients and sessions ----------

  /** The transport lists of the connected clients, and per session its expiry counter and
      the streams of its media. */
  datatype Server = Server(lists: seq<seq<Trans>>, expire: seq<int>, kinds: seq<seq<seq<Kind>>>)
  {
    predicate Valid() { |expire| == |kinds| }
  }

  datatype Event =
    | Connect
    | NewSession
    | NewMedia(s: nat, streams: nat)
    | Setup(s: nat, m: nat, i: nat, kind: Kind)
    | Link(c: nat, s: nat, m: nat)     // PLAY over connection c
    | Unlink(c: nat, s: nat, m: nat)   // PAUSE or TEARDOWN over connection c

  predicate Possible(sv: Server, e: Event) {
    match e
    case NewMedia(s, _) => s < |sv.kinds|
    case Setup(s, m, i, kind) => s < |sv.kinds| && m < |sv.kinds[s]| && i < |sv.kinds[s][m]| && kind != Unset
    case Link(c, s, m) => c < |sv.lists| && s < |sv.kinds| && m < |sv.kinds[s]|
    case Unlink(c, s, m) => c < |sv.lists| && s < |sv.kinds| && m < |sv.kinds[s]|
    case _ => true
  }

  function Handle(sv: Server, e: Event): (r: Server)
    requires sv.Valid() && Possible(sv, e)
    ensures r.Valid()
  {
    match e
    case Connect => sv.(lists := sv.lists + [[]])
    case NewSession => sv.(expire := sv.expire + [0], kinds := sv.kinds + [[]])
    case NewMedia(s, n) => sv.(kinds := sv.kinds[s := sv.kinds[s] + [seq(n, i => Unset)]])
    case Setup(s, m, i, kind) => sv.(kinds := sv.kinds[s := sv.kinds[s][m := sv.kinds[s][m][i := kind]]])
    case Link(c, s, m) =>
      sv.(lists := sv.lists[c := LinkAll(sv.kinds[s][m], s, m, sv.lists[c])],
          expire := sv.expire[s := sv.expire[s] + CountTcp(sv.kinds[s][m])])
    case Unlink(c, s, m) =>
      sv.(lists := sv.lists[c := UnlinkAll(sv.kinds[s][m], s, m, sv.lists[c])],
          expire := sv.expire[s := sv.expire[s] - CountTcp(sv.kinds[s][m])])
  }

  function AllEntries(lists: seq<seq<Trans>>, s: nat): nat {
    if lists == [] then 0 else Entries(lists[0], s) + AllEntries(lists[1..], s)
  }

  /** How far the counter of a session is from the number of its linked transports; a session
      still to come counts from 0. */
  function Drift(sv: Server, s: nat): int {
    (if s < |sv.expire| then sv.expire[s] else 0) - AllEntries(sv.lists, s)
  }

  /** A server that nobody has used yet. */
  const UNUSED := Server([], [], [])

  lemma {:induction false} AllEntriesUpdate(lists: seq<seq<Trans>>, c: nat, list: seq<Trans>, s: nat)
    requires c < |lists|
    ensures AllEntries(lists[c := list], s) == AllEntries(lists, s) - Entries(lists[c], s) + Entries(list, s)
  {
    if c > 0 {
      AllEntriesUpdate(lists[1..], c - 1, list, s);
      assert lists[c := list][1..] == lists[1..][c - 1 := list];
    } else {
      assert lists[0 := list][1..] == lists[1..];
    }
  }

  lemma {:induction false} AllEntriesConnect(lists: seq<seq<Trans>>, s: nat)
    ensures AllEntries(lists + [[]], s) == AllEntries(lists, s)
  {
    if lists == [] {
      assert (lists + [[]])[1..] == [];
    } else {
      assert (lists + [[]])[1..] == lists[1..] + [[]];
      AllEntriesConnect(lists[1..], s);
    }
  }

  /** How many transports an event unlinks that are not linked where it looks. */
  function Misses(sv: Server, e: Event, s: nat): nat
    requires Possible(sv, e)
  {
    if e.Unlink? && e.s == s then Missing(sv.kinds[s][e.m], s, e.m, sv.lists[e.c]) else 0
  }

  /** Exactly the unlinking of transports that are not linked moves the counter away from
      the number of linked transports, by one each; repeated PLAY does not. */
  lemma DriftOfEvent(sv: Server, e: Event, s: nat)
    requires sv.Valid() && Possible(sv, e)
    ensures Drift(Handle(sv, e), s) == Drift(sv, s) - Misses(sv, e, s)
  {
    match e
    case Connect => AllEntriesConnect(sv.lists, s);
    case Link(c, u, m) =>
      AllEntriesUpdate(sv.lists, c, LinkAll(sv.kinds[u][m], u, m, sv.lists[c]), s);
      EntriesAfterLink(sv.kinds[u][m], u, m, sv.lists[c], s);
    case Unlink(c, u, m) =>
      AllEntriesUpdate(sv.lists, c, UnlinkAll(sv.kinds[u][m], u, m, sv.lists[c]), s);
      EntriesAfterUnlink(sv.kinds[u][m], u, m, sv.lists[c], s);
    case _ =>
  }

  // ---------- runs ----------

  predicate PossibleRun(sv: Server, es: seq<Event>)
    requires sv.Valid()
    decreases |es|
  {
    es == [] || (Possible(sv, es[0]) && PossibleRun(Handle(sv, es[0]), es[1..]))
  }

  function Run(sv: Server, es: seq<Event>): (r: Server)
    requires sv.Valid() && PossibleRun(sv, es)
    ensures r.Valid()
    decreases |es|
  {
    if es == [] then sv else Run(Handle(sv, es[0]), es[1..])
  }

  /** No PAUSE or TEARDOWN of the session meets a transport that is not linked. */
  predicate Clean(sv: Server, es: seq<Event>, s: nat)
    requires sv.Valid() && PossibleRun(sv, es)
    decreases |es|
  {
    es == [] || (Misses(sv, es[0], s) == 0 && Clean(Handle(sv, es[0]), es[1..], s))
  }

  /** Over any run, for sessions that are there at the start or come later, counter and number
      of linked transports drift apart exactly when a transport is unlinked that was not
      linked. */
  lemma {:induction false} RunDrift(sv: Server, es: seq<Event>, s: nat)
    requires sv.Valid() && PossibleRun(sv, es)
    ensures Drift(Run(sv, es), s) <= Drift(sv, s)
    ensures Drift(Run(sv, es), s) == Drift(sv, s) <==> Clean(sv, es, s)
    decreases |es|
  {
    if es != [] {
      DriftOfEvent(sv, es[0], s);
      RunDrift(Handle(sv, es[0]), es[1..], s);
    }
  }

  /** So, from an unused server on, the counter is the number of linked transports, and while
      one of the session is linked anywhere, the session is not among those that a clean-up of
      the table removes. */
  lemma LinkedSessionIsKept(es: seq<Event>, s: nat, table: Table, id: string, now: nat, clock: nat)
    requires PossibleRun(UNUSED, es) && Clean(UNUSED, es, s)
    requires s < |Run(UNUSED, es).expire| && AllEntries(Run(UNUSED, es).lists, s) > 0
    requires id in table && table[id].expireCount == Run(UNUSED, es).expire[s]
    requires clock >= now && FitsInt(table[id], now, clock)
    ensures Run(UNUSED, es).expire[s] == AllEntries(Run(UNUSED, es).lists, s)
    ensures id !in ExpiredIds(table, now, clock)
  {
    RunDrift(UNUSED, es, s);
    PinnedNeverExpires(table[id], now, clock);
  }

  lemma {:induction false} LinkedAreInTheList(kinds: seq<Kind>, s: nat, m: nat, list: seq<Trans>, i: nat)
    requires i < |kinds| && kinds[i] == Tcp
    ensures Trans(s, m, i) in LinkAll(kinds, s, m, list)
  {
    var n := |kinds| - 1;
    if i < n {
      LinkedAreInTheList(kinds[..n], s, m, list, i);
    }
  }

  lemma {:induction false} NoneMissing(kinds: seq<Kind>, s: nat, m: nat, list: seq<Trans>)
    requires forall i: nat :: i < |kinds| && kinds[i] == Tcp ==> Trans(s, m, i) in list
    ensures Missing(kinds, s, m, list) == 0
  {
    if kinds != [] {
      NoneMissing(kinds[..|kinds| - 1], s, m, list);
    }
  }

  /** A PLAY repeated while playing links every transport again, and one PAUSE undoes only
      the repetition: the counter is even and the session stays as pinned as after one PLAY. */
  lemma RepeatedPlayKeepsPinning(sv: Server, c: nat, s: nat, m: nat)
    requires sv.Valid() && c < |sv.lists| && s < |sv.expire| && m < |sv.kinds[s]| && Drift(sv, s) == 0
    ensures
      var once := Handle(sv, Link(c, s, m));
      var twice := Handle(once, Link(c, s, m));
      var paused := Handle(twice, Unlink(c, s, m));
      && paused.expire[s] == once.expire[s] == sv.expire[s] + CountTcp(sv.kinds[s][m])
      && Drift(paused, s) == 0
  {
    var kinds := sv.kinds[s][m];
    var once := Handle(sv, Link(c, s, m));
    var twice := Handle(once, Link(c, s, m));
    DriftOfEvent(sv, Link(c, s, m), s);
    DriftOfEvent(once, Link(c, s, m), s);
    forall i: nat | i < |kinds| && kinds[i] == Tcp ensures Trans(s, m, i) in twice.lists[c] {
      LinkedAreInTheList(kinds, s, m, once.lists[c], i);
    }
    NoneMissing(kinds, s, m, twice.lists[c]);
    DriftOfEvent(twice, Unlink(c, s, m), s);
  }

  // ---------- the client object ----------

  class Client {
    var transports: seq<Trans>

    constructor ()
      ensures transports == []
    {
      transports := [];
    }

    method LinkTransport(session: Session, t: Trans)
      modifies this, session
      ensures transports == [t] + old(transports)
      ensures session.View() == old(session.View()).(expireCount := old(session.expireCount) + 1)
    {
      transports := [t] + transports;
      session.PreventExpire();
    }

    method UnlinkTransport(session: Session, t: Trans)
      modifies this, session
      ensures transports == RemoveFirst(old(transports), t)
      ensures session.View() == old(session.View()).(expireCount := old(session.expireCount) - 1)
    {
      var i := 0;
      while i < |transports| && transports[i] != t
        modifies {}
        invariant 0 <= i <= |transports|
        invariant RemoveFirst(transports, t) == transports[..i] + RemoveFirst(transports[i..], t)
      {
        assert transports[i..][1..] == transports[i + 1..];
        assert transports[..i + 1] == transports[..i] + [transports[i]];
        i := i + 1;
      }
      if i < |transports| {
        assert transports[i..][1..] == transports[i + 1..];
        transports := transports[..i] + transports[i + 1..];
      }
      session.AllowExpire();
    }

    /** Links the TCP transports of a media of the session when it starts playing. */
    method LinkSessionTransports(session: Session, s: nat, m: nat, kinds: seq<Kind>)
      modifies this, session
      ensures transports == LinkAll(kinds, s, m, old(transports))
      ensures session.View() == old(session.View()).(expireCount := old(session.expireCount) + CountTcp(kinds))
    {
      var i := 0;
      while i < |kinds|
        invariant 0 <= i <= |kinds|
        invariant transports == LinkAll(kinds[..i], s, m, old(transports))
        invariant session.View() == old(session.View()).(expireCount := old(session.expireCount) + CountTcp(kinds[..i]))
      {
        assert kinds[..i + 1][..i] == kinds[..i];
        if kinds[i] == Tcp {
          LinkTransport(session, Trans(s, m, i));
        }
        i := i + 1;
      }
      assert kinds[..i] == kinds;
    }

    /** Unlinks them when it pauses or is torn down. */
    method UnlinkSessionTransports(session: Session, s: nat, m: nat, kinds: seq<Kind>)
      modifies this, session
      ensures transports == UnlinkAll(kinds, s, m, old(transports))
      ensures session.View() == old(session.View()).(expireCount := old(session.expireCount) - CountTcp(kinds))
    {
      var i := 0;
      while i < |kinds|
        invariant 0 <= i <= |kinds|
        invariant transports == UnlinkAll(kinds[..i], s, m, old(transports))
        invariant session.View() == old(session.View()).(expireCount := old(session.expireCount) - CountTcp(kinds[..i]))
      {
        assert kinds[..i + 1][..i] == kinds[..i];
        if kinds[i] == Tcp {
          UnlinkTransport(session, Trans(s, m, i));
        }
        i := i + 1;
      }
      assert kinds[..i] == kinds;
    }
  }
}
