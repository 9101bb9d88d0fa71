/** The updates the server asks of the route layer, and what they mean for the connections: who was offered
    one, and that a connection is closed exactly when sending to it failed or it had to go. */
module Offers {
  import opened Words
  import opened Rooms
  import opened ServerState

  /** One update asked for: for whom, whether in full, and whether sending it threw. */
  datatype Tried = Tried(to: ConnId, full: bool, thrown: bool)

  /** From position `since` on, an update was asked for this connection, full or not as given. */
  ghost predicate Offered(log: seq<Tried>, since: nat, c: ConnId, full: bool) {
    exists k :: since <= k < |log| && log[k].to == c && log[k].full == full
  }

  /** Sending to this connection threw. */
  ghost predicate Failed(log: seq<Tried>, since: nat, c: ConnId) {
    exists k :: since <= k < |log| && log[k].to == c && log[k].thrown
  }

  /** From `a` to `b` exactly those ready connections were closed to which sending failed, and those of
      `extra`; nothing else changed. */
  ghost predicate Justified(a: Conns, b: Conns, extra: set<ConnId>, log: seq<Tried>, since: nat) {
    && OnlyCloses(a, b, extra)
    && (forall d :: d in a && a[d].phase == Ready && b[d].phase == Closed ==> d in extra || Failed(log, since, d))
    && (forall d :: Failed(log, since, d) ==> d in b && b[d].phase == Closed)
  }

  lemma LastIsTried(log: seq<Tried>, x: Tried)
    ensures Offered(log + [x], |log|, x.to, x.full)
    ensures forall d :: Failed(log + [x], |log|, d) <==> x.thrown && d == x.to
  {
    assert (log + [x])[|log|] == x;
  }

  /** What was asked since an earlier moment stays so. */
  lemma MoreTried(first: seq<Tried>, a: seq<Tried>, b: seq<Tried>)
    requires first <= a <= b
    ensures forall c: ConnId, full :: Offered(a, |first|, c, full) ==> Offered(b, |first|, c, full)
    ensures forall c: ConnId, full :: Offered(b, |a|, c, full) ==> Offered(b, |first|, c, full)
    ensures forall c: ConnId :: Failed(b, |first|, c) <==> Failed(a, |first|, c) || Failed(b, |a|, c)
  {
    assert forall k :: 0 <= k < |a| ==> b[k] == a[k];
    forall c: ConnId, full | Offered(a, |first|, c, full)
      ensures Offered(b, |first|, c, full)
    {
      var k :| |first| <= k < |a| && a[k].to == c && a[k].full == full;
      assert b[k] == a[k];
    }
    forall c: ConnId | Failed(a, |first|, c)
      ensures Failed(b, |first|, c)
    {
      var k :| |first| <= k < |a| && a[k].to == c && a[k].thrown;
      assert b[k] == a[k];
    }
  }

  lemma NothingTried(conns: Conns, log: seq<Tried>)
    ensures Justified(conns, conns, {}, log, |log|)
  {
  }

  lemma JustifiedTrans(a: Conns, b: Conns, c: Conns, x: set<ConnId>, y: set<ConnId>, first: seq<Tried>, l: seq<Tried>,
                       m: seq<Tried>)
    requires first <= l <= m
    requires Justified(a, b, x, l, |first|) && Justified(b, c, y, m, |l|)
    ensures Justified(a, c, x + y, m, |first|)
  {
    MoreTried(first, l, m);
    hide Failed;
  }

  lemma JustifiedAgain(a: Conns, b: Conns, c: Conns, first: seq<Tried>, l: seq<Tried>, m: seq<Tried>)
    requires first <= l <= m
    requires Justified(a, b, {}, l, |first|) && Justified(b, c, {}, m, |l|)
    ensures Justified(a, c, {}, m, |first|)
  {
    JustifiedTrans(a, b, c, {}, {}, first, l, m);
    var none: set<ConnId> := {};
    assert none + none == none;
  }

  /** Closing one connection, and nothing asked. */
  lemma ClosingJustified(conns: Conns, c: ConnId, log: seq<Tried>)
    requires c in conns
    ensures Justified(conns, conns[c := conns[c].(phase := Closed)], {c}, log, |log|)
    ensures conns[c].phase == Closed ==> Justified(conns, conns, {c}, log, |log|)
  {
  }

  /** A failed send to a ready connection, which is then closed. */
  lemma FailureJustified(a: Conns, b: Conns, c: ConnId, first: seq<Tried>, x: Tried, log: seq<Tried>)
    requires c in a && a[c].phase == Ready && x.to == c && x.thrown && first + [x] <= log
    requires Justified(a, b, {c}, log, |first + [x]|) && b[c].phase == Closed
    ensures Justified(a, b, {}, log, |first|)
  {
    LastIsTried(first, x);
    MoreTried(first, first + [x], log);
    hide Failed;
  }

  /** A send that did not throw. */
  lemma SuccessJustified(conns: Conns, first: seq<Tried>, x: Tried)
    requires !x.thrown
    ensures Justified(conns, conns, {}, first + [x], |first|)
  {
    LastIsTried(first, x);
    hide Failed;
  }

  lemma JustifiedKeeps(a: Conns, b: Conns, log: seq<Tried>, since: nat)
    requires Justified(a, b, {}, log, since)
    ensures OnlyCloses(a, b, {}) && b.Keys == a.Keys
    ensures forall c :: c in b && b[c].phase == Ready ==> a[c] == b[c]
  {
  }

  lemma JustifiedExtra(a: Conns, b: Conns, extra: set<ConnId>, log: seq<Tried>, since: nat)
    requires Justified(a, b, extra, log, since)
    ensures OnlyCloses(a, b, extra) && b.Keys == a.Keys
    ensures forall c :: c in a ==> b[c] == a[c] || b[c] == a[c].(phase := Closed)
  {
  }

  lemma JustifiedKeepsClosed(a: Conns, b: Conns, c: ConnId, log: seq<Tried>, since: nat)
    requires Justified(a, b, {}, log, since) && c in a && a[c].phase == Closed
    ensures c in b && b[c] == a[c]
  {
  }

  /** Where nothing was asked, nobody else was closed. */
  lemma NobodyElse(a: Conns, b: Conns, c: ConnId, log: seq<Tried>)
    requires Justified(a, b, {c}, log, |log|)
    ensures forall d :: d in a && d != c ==> d in b && b[d] == a[d]
  {
  }

  /** A connection in its handshake is not closed by the closing of others. */
  lemma PendingStays(a: Conns, b: Conns, c: ConnId, extra: set<ConnId>, log: seq<Tried>, since: nat)
    requires Justified(a, b, extra, log, since) && c in Pending(a)
    requires forall d :: d in extra ==> d in a && a[d].phase == Ready
    ensures c in b && b[c] == a[c]
  {
  }

  // ----- the end of a handshake

  /** How a handshake ends for everyone: the connection is ready, unless the route layer did not take it or an
      update could not be sent to it, when it is closed; whoever was ready under its name is closed; of the
      others those to which sending failed. */
  ghost predicate Finished(a: Conns, b: Conns, c: ConnId, taken: bool, log: seq<Tried>, since: nat) {
    && c in a && c in b && b.Keys == a.Keys
    && b[c] == a[c].(phase := if taken && !Failed(log, since, c) then Ready else Closed)
    && (forall d :: d in a && d != c ==>
          b[d] == if a[d].phase == Ready && (ReadyAs(a, a[c].network, a[c].peerId, d) || Failed(log, since, d))
                  then a[d].(phase := Closed) else a[d])
  }

  lemma NotTaken(a: Conns, b: Conns, c: ConnId, replaced: set<ConnId>, log: seq<Tried>, since: nat)
    requires c in Pending(a) && Justified(a, b, replaced + {c}, log, since) && b[c].phase == Closed
    requires forall d: ConnId :: d in replaced <==> ReadyAs(a, a[c].network, a[c].peerId, d)
    requires forall d :: d in replaced ==> d in b && b[d].phase == Closed
    ensures Finished(a, b, c, false, log, since)
  {
    hide Failed;
  }

  lemma TakenIsFinished(a: Conns, entered: Conns, b: Conns, c: ConnId, replaced: set<ConnId>, first: seq<Tried>,
                        l: seq<Tried>, m: seq<Tried>)
    requires c in Pending(a) && first <= l <= m && Justified(a, entered, replaced, l, |first|)
    requires c in entered && entered[c] == a[c]
    requires forall d: ConnId :: d in replaced <==> ReadyAs(a, a[c].network, a[c].peerId, d)
    requires forall d :: d in replaced ==> d in entered && entered[d].phase == Closed
    requires Justified(entered[c := entered[c].(phase := Ready)], b, {}, m, |l|)
    ensures Finished(a, b, c, true, m, |first|)
  {
    MoreTried(first, l, m);
    hide Failed;
  }

  // ----- forwarding

  function TargetsOf(conns: Conns, network: string, to: u32): set<ConnId> {
    set d | d in conns && ReadyAs(conns, network, to, d)
  }

  /** A forwarded frame: nothing changes if it was sent; else its target is closed, if there is one. */
  ghost predicate Forwarded(a: Conns, b: Conns, network: string, to: u32, sent: bool, log: seq<Tried>, since: nat) {
    && Justified(a, b, if sent then {} else TargetsOf(a, network, to), log, since)
    && (!sent ==> forall d :: d in TargetsOf(a, network, to) ==> b[d].phase == Closed)
  }

  lemma NothingForwarded(conns: Conns, network: string, to: u32, sent: bool, log: seq<Tried>)
    requires sent || TargetsOf(conns, network, to) == {}
    ensures Forwarded(conns, conns, network, to, sent, log, |log|)
  {
  }

  lemma TargetClosed(a: Conns, b: Conns, network: string, to: u32, target: ConnId, log: seq<Tried>, since: nat)
    requires Justified(a, b, {target}, log, since) && b.Keys == a.Keys
    requires forall d: ConnId :: d == target <==> ReadyAs(a, network, to, d)
    requires target in b && b[target].phase == Closed
    ensures Forwarded(a, b, network, to, false, log, since)
  {
    assert TargetsOf(a, network, to) == {target};
  }

  // ----- maintenance

  /** The ready connections under the names the route layer gave up. */
  function GivenUp(conns: Conns, failures: seq<RouteKey>): set<ConnId> {
    set d | d in conns && conns[d].phase == Ready && KeyOf(conns[d]) in failures
  }

  /** Going on after some of `x` were closed; whoever is closed now was ready throughout. */
  lemma JustifiedWithin(a: Conns, b: Conns, c: Conns, x: set<ConnId>, y: set<ConnId>, first: seq<Tried>, l: seq<Tried>,
                        m: seq<Tried>)
    requires first <= l <= m && y <= x
    requires Justified(a, b, x, l, |first|) && Justified(b, c, y, m, |l|)
    ensures Justified(a, c, x, m, |first|)
  {
    JustifiedTrans(a, b, c, x, y, first, l, m);
    assert x + y == x;
  }

  lemma NothingYet(conns: Conns, x: set<ConnId>, log: seq<Tried>)
    ensures Justified(conns, conns, x, log, |log|)
  {
  }

  lemma ReadyIsOld(a: Conns, b: Conns, x: set<ConnId>, log: seq<Tried>, since: nat)
    requires Justified(a, b, x, log, since) && forall d :: d in x ==> d in a && a[d].phase == Ready
    ensures b.Keys == a.Keys
    ensures forall c :: c in b && b[c].phase == Ready ==> a[c] == b[c]
    ensures forall c :: c in a ==> b[c] == a[c] || b[c] == a[c].(phase := Closed)
  {
  }

  /** These networks were told. */
  ghost predicate AllTold(conns: Conns, networks: seq<string>, log: seq<Tried>, since: nat) {
    forall i :: 0 <= i < |networks| ==> Told(conns, networks[i], None, false, log, since)
  }

  lemma AllToldStays(a: Conns, b: Conns, networks: seq<string>, first: seq<Tried>, l: seq<Tried>, m: seq<Tried>)
    requires first <= l <= m && OnlyCloses(a, b, {}) && AllTold(a, networks, l, |first|)
    ensures AllTold(b, networks, m, |first|)
  {
    hide Told;
    forall i | 0 <= i < |networks|
      ensures Told(b, networks[i], None, false, m, |first|)
    {
      ToldStays(a, b, networks[i], None, false, first, l, m);
    }
  }

  lemma AllToldEarlier(conns: Conns, networks: seq<string>, first: seq<Tried>, l: seq<Tried>, m: seq<Tried>)
    requires first <= l <= m && AllTold(conns, networks, m, |l|)
    ensures AllTold(conns, networks, m, |first|)
  {
    hide Told;
    forall i | 0 <= i < |networks|
      ensures Told(conns, networks[i], None, false, m, |first|)
    {
      ToldEarlier(conns, networks[i], None, false, first, l, m);
    }
  }

  lemma OneMoreTold(conns: Conns, networks: seq<string>, network: string, log: seq<Tried>, since: nat)
    requires AllTold(conns, networks, log, since) && Told(conns, network, None, false, log, since)
    ensures AllTold(conns, networks + [network], log, since)
  {
    hide Told;
  }

  /** Of these connections, those due and still ready were offered an update. */
  ghost predicate DueOffered(conns: Conns, ids: seq<ConnId>, due: set<ConnId>, log: seq<Tried>, since: nat) {
    forall c :: c in ids && c in due && c in conns && conns[c].phase == Ready ==> Offered(log, since, c, false)
  }

  lemma OneMoreDue(a: Conns, b: Conns, ids: seq<ConnId>, c: ConnId, due: set<ConnId>, first: seq<Tried>, l: seq<Tried>,
                   m: seq<Tried>)
    requires first <= l <= m && OnlyCloses(a, b, {}) && DueOffered(a, ids, due, l, |first|)
    requires c in due && c in a && a[c].phase == Ready ==> Offered(m, |l|, c, false)
    ensures DueOffered(b, ids + [c], due, m, |first|)
  {
    MoreTried(first, l, m);
    hide Offered;
  }

  // ----- a network is told

  /** A ready connection of the network, and not the one left out. */
  predicate Wants(c: Conn, network: string, exclude: Option<u32>) {
    c.phase == Ready && c.network == network && exclude != Some(c.peerId)
  }

  /** Every ready connection of the network but the excluded one was offered an update. */
  ghost predicate Told(conns: Conns, network: string, exclude: Option<u32>, full: bool, log: seq<Tried>, since: nat) {
    forall d :: d in conns && Wants(conns[d], network, exclude) ==> Offered(log, since, d, full)
  }

  /** It stays told while connections only close. */
  lemma ToldStays(a: Conns, b: Conns, network: string, exclude: Option<u32>, full: bool, first: seq<Tried>,
                  l: seq<Tried>,
                  m: seq<Tried>)
    requires OnlyCloses(a, b, {}) && first <= l <= m && Told(a, network, exclude, full, l, |first|)
    ensures Told(b, network, exclude, full, m, |first|)
  {
    MoreTried(first, l, m);
    hide Offered;
  }

  /** Telling everyone is telling everyone but one. */
  lemma ToldAll(conns: Conns, network: string, exclude: Option<u32>, full: bool, log: seq<Tried>, since: nat)
    requires Told(conns, network, None, full, log, since)
    ensures Told(conns, network, exclude, full, log, since)
  {
    hide Offered;
  }

  /** What was told from a later moment on was told from an earlier one on. */
  lemma ToldEarlier(conns: Conns, network: string, exclude: Option<u32>, full: bool, first: seq<Tried>, l: seq<Tried>,
                    m: seq<Tried>)
    requires first <= l <= m && Told(conns, network, exclude, full, m, |l|)
    ensures Told(conns, network, exclude, full, m, |first|)
  {
    MoreTried(first, l, m);
    hide Offered;
  }

  ghost predicate AllOffered(conns: Conns, network: string, exclude: Option<u32>, ids: seq<ConnId>, log: seq<Tried>,
                             since: nat, full: bool)
  {
    forall c :: c in ids && c in conns && Wants(conns[c], network, exclude) ==> Offered(log, since, c, full)
  }

  lemma OneMoreOffered(a: Conns, b: Conns, network: string, exclude: Option<u32>, ids: seq<ConnId>, c: ConnId,
                       first: seq<Tried>, before: seq<Tried>, after: seq<Tried>, full: bool)
    requires OnlyCloses(a, b, {}) && first <= before <= after
    requires AllOffered(a, network, exclude, ids, before, |first|, full)
    requires c in b && Wants(b[c], network, exclude) ==> Offered(after, |first|, c, full)
    ensures AllOffered(b, network, exclude, ids + [c], after, |first|, full)
  {
    MoreTried(first, before, after);
    hide Offered;
  }

  /** Every member was seen to. */
  lemma AllAreTold(conns: Conns, network: string, exclude: Option<u32>, ids: seq<ConnId>, log: seq<Tried>, since: nat,
                   full: bool)
    requires AllOffered(conns, network, exclude, ids, log, since, full)
    requires forall c :: c in conns && conns[c].phase == Ready && conns[c].network == network ==> c in ids
    ensures Told(conns, network, exclude, full, log, since)
  {
    hide Offered;
  }
}
