/**
 * GET /api/messages/threads of server.js: one entry per conversation partner, carrying the
 * text and time of the partner's latest message, newest conversation first. The route scans
 * the caller's messages once, keeping an insertion-ordered `Map` from peer to entry, and
 * replaces an entry only by a strictly newer message.
 */
module ServerThreads {
  import opened Wrappers
  import opened JsArray
  import opened Identity
  import opened ServerJs

  /** `{ peer, last, time }`: `last` is the message's `text` (undefined for a notice). */
  datatype Thread = Thread(peer: string, last: Option<string>, time: int)

  /** The caller sent or received the message. */
  predicate Involves(m: Message, me: string, dec: Decoder) {
    NormalizeEmail(m.from, dec) == me || NormalizeEmail(m.to, dec) == me
  }

  /** The other party: the recipient of what the caller sent (the caller itself for a
      message to self), otherwise the sender. */
  function PeerOf(m: Message, me: string, dec: Decoder): string {
    if NormalizeEmail(m.from, dec) == me then NormalizeEmail(m.to, dec) else NormalizeEmail(m.from, dec)
  }

  function Summary(m: Message, me: string, dec: Decoder): (t: Thread)
    ensures t.peer == PeerOf(m, me, dec) && t.last == m.text && t.time == m.time
  {
    Thread(PeerOf(m, me, dec), m.text, m.time)
  }

  /** The messages as the entries they would make, in scan order. */
  function Summaries(ms: seq<Message>, me: string, dec: Decoder): (ts: seq<Thread>)
    ensures |ts| == |ms| && forall i :: 0 <= i < |ms| ==> ts[i] == Summary(ms[i], me, dec)
  {
    seq(|ms|, i requires 0 <= i < |ms| => Summary(ms[i], me, dec))
  }

  /** The entry for the message's peer. */
  function SamePeer(t: Thread): Thread -> bool {
    (e: Thread) => e.peer == t.peer
  }

  /** One step of the scan: a new peer is appended, a known peer's entry is replaced in place
      when the message is strictly newer, and kept otherwise. */
  function Absorb(entries: seq<Thread>, t: Thread): seq<Thread> {
    match FindIndex(entries, SamePeer(t))
    case None => entries + [t]
    case Some(k) => if entries[k].time < t.time then entries[k := t] else entries
  }

  /** The map's values, in insertion order, after scanning `ts`. */
  function Aggregate(ts: seq<Thread>): seq<Thread> {
    if ts == [] then [] else Absorb(Aggregate(ts[..|ts| - 1]), ts[|ts| - 1])
  }

  /** `ts[i]` is what a thread with `p` should show: the latest message with that peer, and
      among equally late ones the first. */
  predicate Chosen(ts: seq<Thread>, i: nat, p: string) {
    && i < |ts| && ts[i].peer == p
    && (forall j :: 0 <= j < |ts| && ts[j].peer == p ==> ts[j].time <= ts[i].time)
    && (forall j :: 0 <= j < i && ts[j].peer == p ==> ts[j].time < ts[i].time)
  }

  /** Reference definition: the index of the message a thread with `p` should show, `None`
      when no message has that peer. */
  function Best(ts: seq<Thread>, p: string): (r: Option<nat>)
    ensures r.None? <==> forall j :: 0 <= j < |ts| ==> ts[j].peer != p
    ensures r.Some? ==> Chosen(ts, r.value, p)
  {
    if ts == [] then None
    else
      var n := |ts| - 1;
      var b := Best(ts[..n], p);
      assert forall j :: 0 <= j < n ==> ts[..n][j] == ts[j];
      if ts[n].peer != p then b
      else match b
        case None => Some(n)
        case Some(i) => if ts[i].time < ts[n].time then Some(n) else b
  }

  predicate DistinctPeers(entries: seq<Thread>) {
    forall i, j :: 0 <= i < j < |entries| ==> entries[i].peer != entries[j].peer
  }

  predicate HasPeer(entries: seq<Thread>, p: string) {
    exists k :: 0 <= k < |entries| && entries[k].peer == p
  }

  /** What the route promises about its entries: one per peer, exactly the peers of `ts`,
      each the chosen message of its peer. */
  predicate Summarises(entries: seq<Thread>, ts: seq<Thread>) {
    && DistinctPeers(entries)
    && (forall k :: 0 <= k < |entries| ==>
          Best(ts, entries[k].peer).Some? && entries[k] == ts[Best(ts, entries[k].peer).value])
    && (forall j :: 0 <= j < |ts| ==> HasPeer(entries, ts[j].peer))
  }

  /** The scan computes exactly the per-peer choices. */
  lemma {:induction false} AggregateSummarises(ts: seq<Thread>)
    ensures Summarises(Aggregate(ts), ts)
  {
    if ts != [] {
      AggregateSummarises(ts[..|ts| - 1]);
      AbsorbStep(ts);
    }
  }

  lemma AbsorbStep(ts: seq<Thread>)
    requires ts != []
    requires Summarises(Aggregate(ts[..|ts| - 1]), ts[..|ts| - 1])
    ensures Summarises(Aggregate(ts), ts)
  {
    var n := |ts| - 1;
    SnocLast(ts);
    AbsorbSummarises(Aggregate(ts[..n]), ts[..n], ts[n], ts);
  }

  lemma SnocLast<T>(s: seq<T>)
    requires s != []
    ensures s[..|s| - 1] + [s[|s| - 1]] == s
  {
  }

  /** Absorbing a message keeps the entries a summary of the messages scanned. */
  lemma AbsorbSummarises(e: seq<Thread>, pre: seq<Thread>, t: Thread, ts: seq<Thread>)
    requires Summarises(e, pre) && pre + [t] == ts
    ensures Summarises(Absorb(e, t), ts)
  {
    match FindIndex(e, SamePeer(t))
    case None =>
      AbsorbNew(e, pre, t);
    case Some(k) =>
      AbsorbKnown(e, pre, t, k);
  }

  /** Scanning one more message changes the choice only for its own peer. */
  lemma BestSnoc(pre: seq<Thread>, t: Thread, q: string)
    ensures Best(pre + [t], q) ==
      if q != t.peer then Best(pre, q)
      else match Best(pre, q)
        case None => Some(|pre|)
        case Some(i) => if pre[i].time < t.time then Some(|pre|) else Some(i)
  {
    assert (pre + [t])[..|pre|] == pre;
  }

  /** A message with a new peer appends its entry. */
  lemma AbsorbNew(e: seq<Thread>, pre: seq<Thread>, t: Thread)
    requires Summarises(e, pre)
    requires forall k :: 0 <= k < |e| ==> e[k].peer != t.peer
    ensures Summarises(e + [t], pre + [t])
  {
    var e' := e + [t];
    var ts := pre + [t];
    assert Best(pre, t.peer).None? by {
      forall j | 0 <= j < |pre|
        ensures pre[j].peer != t.peer
      {
        assert HasPeer(e, pre[j].peer);
      }
    }
    BestSnoc(pre, t, t.peer);
    forall k | 0 <= k < |e'|
      ensures Best(ts, e'[k].peer).Some? && e'[k] == ts[Best(ts, e'[k].peer).value]
    {
      BestSnoc(pre, t, e'[k].peer);
      if k < |e| {
        assert e'[k] == e[k];
        assert ts[Best(pre, e[k].peer).value] == pre[Best(pre, e[k].peer).value];
      }
    }
    forall j | 0 <= j < |ts|
      ensures HasPeer(e', ts[j].peer)
    {
      if j == |pre| {
        assert e'[|e|].peer == t.peer;
      } else {
        assert ts[j] == pre[j];
        assert HasPeer(e, pre[j].peer);
        var k :| 0 <= k < |e| && e[k].peer == pre[j].peer;
        assert e'[k] == e[k];
      }
    }
  }

  /** A message with a known peer replaces that peer's entry when strictly newer. */
  lemma AbsorbKnown(e: seq<Thread>, pre: seq<Thread>, t: Thread, k: nat)
    requires Summarises(e, pre)
    requires k < |e| && e[k].peer == t.peer
    ensures Summarises(if e[k].time < t.time then e[k := t] else e, pre + [t])
  {
    var e' := if e[k].time < t.time then e[k := t] else e;
    assert |e'| == |e| && forall x :: 0 <= x < |e| ==> e'[x].peer == e[x].peer;
    KnownChosen(e, pre, t, k);
    KnownCovers(e, pre, t, k);
  }

  /** After a known peer's message every entry is still its peer's chosen message. */
  lemma KnownChosen(e: seq<Thread>, pre: seq<Thread>, t: Thread, k: nat)
    requires Summarises(e, pre)
    requires k < |e| && e[k].peer == t.peer
    ensures var e' := if e[k].time < t.time then e[k := t] else e;
      forall x :: 0 <= x < |e'| ==>
        Best(pre + [t], e'[x].peer).Some? && e'[x] == (pre + [t])[Best(pre + [t], e'[x].peer).value]
  {
    var e' := if e[k].time < t.time then e[k := t] else e;
    var ts := pre + [t];
    var i := Best(pre, t.peer).value;
    assert e[k] == pre[i];
    forall x | 0 <= x < |e'|
      ensures Best(ts, e'[x].peer).Some? && e'[x] == ts[Best(ts, e'[x].peer).value]
    {
      BestSnoc(pre, t, e'[x].peer);
      if x != k {
        assert e'[x] == e[x];
        assert ts[Best(pre, e[x].peer).value] == pre[Best(pre, e[x].peer).value];
      } else if e[k].time >= t.time {
        assert ts[i] == pre[i];
      }
    }
  }

  /** After a known peer's message every scanned peer still has an entry. */
  lemma KnownCovers(e: seq<Thread>, pre: seq<Thread>, t: Thread, k: nat)
    requires Summarises(e, pre)
    requires k < |e| && e[k].peer == t.peer
    ensures var e' := if e[k].time < t.time then e[k := t] else e;
      forall j :: 0 <= j < |pre + [t]| ==> HasPeer(e', (pre + [t])[j].peer)
  {
    var e' := if e[k].time < t.time then e[k := t] else e;
    var ts := pre + [t];
    forall j | 0 <= j < |ts|
      ensures HasPeer(e', ts[j].peer)
    {
      if j == |pre| {
        assert e'[k].peer == t.peer;
      } else {
        assert ts[j] == pre[j];
        assert HasPeer(e, pre[j].peer);
        var k' :| 0 <= k' < |e| && e[k'].peer == pre[j].peer;
        assert e'[k'].peer == pre[j].peer;
      }
    }
  }

  /** The order of the reply: latest conversation first. */
  function NewestThread(t: Thread): Key {
    (-t.time, 0)
  }

  /** GET /api/messages/threads: 401 without a caller; otherwise one thread per peer of the
      caller's messages, each showing the latest message with that peer (the first seen among
      equally late ones), sorted by time descending. */
  method Threads(caller: Caller, msgs: seq<Message>, dec: Decoder) returns (r: Reply<seq<Thread>>)
    ensures caller.email == "" ==> r == Reply(401, [])
    ensures caller.email != "" ==>
      var mine := Filter(msgs, (m: Message) => Involves(m, caller.email, dec));
      && r.status == 200
      && multiset(r.body) == multiset(Aggregate(Summaries(mine, caller.email, dec)))
      && Summarises(r.body, Summaries(mine, caller.email, dec))
      && (forall i, j :: 0 <= i < j < |r.body| ==> r.body[i].time >= r.body[j].time)
  {
    var me := caller.email;
    if me == "" {
      return Reply(401, []);
    }
    var mine := Filter(msgs, (m: Message) => Involves(m, me, dec));
    var entries := Scan(mine, me, dec);
    var out := SortBy(entries, NewestThread);
    SortedThreads(Summaries(mine, me, dec));
    return Reply(200, out);
  }

  /** The loop of the route: one pass over the caller's messages, updating the entries. */
  method Scan(mine: seq<Message>, me: string, dec: Decoder) returns (entries: seq<Thread>)
    ensures entries == Aggregate(Summaries(mine, me, dec))
  {
    ghost var ts := Summaries(mine, me, dec);
    entries := [];
    var i := 0;
    while i < |mine|
      invariant 0 <= i <= |mine|
      invariant entries == Aggregate(ts[..i])
    {
      AggregatePrefix(ts, i);
      entries := Absorb(entries, Summary(mine[i], me, dec));
      i := i + 1;
    }
    assert ts[..i] == ts;
  }

  /** Scanning one more message absorbs it into the entries so far. */
  lemma AggregatePrefix(ts: seq<Thread>, i: nat)
    requires i < |ts|
    ensures Aggregate(ts[..i + 1]) == Absorb(Aggregate(ts[..i]), ts[i])
  {
    assert ts[..i + 1][..i] == ts[..i];
  }

  /** The sorted entries still summarise the scan, newest first. */
  lemma SortedThreads(ts: seq<Thread>)
    ensures var out := SortBy(Aggregate(ts), NewestThread);
      && multiset(out) == multiset(Aggregate(ts))
      && Summarises(out, ts)
      && (forall i, j :: 0 <= i < j < |out| ==> out[i].time >= out[j].time)
  {
    var out := SortBy(Aggregate(ts), NewestThread);
    AggregateSummarises(ts);
    PermutedSummaries(Aggregate(ts), out, ts);
    forall a, b | 0 <= a < b < |out|
      ensures out[a].time >= out[b].time
    {
      assert KeyLe(NewestThread(out[a]), NewestThread(out[b]));
    }
  }

  /** Reordering the entries keeps what they summarise. */
  lemma PermutedSummaries(e: seq<Thread>, o: seq<Thread>, ts: seq<Thread>)
    requires multiset(o) == multiset(e)
    requires Summarises(e, ts)
    ensures Summarises(o, ts)
  {
    forall k | 0 <= k < |o|
      ensures exists i :: 0 <= i < |e| && e[i] == o[k]
    {
      assert o[k] in multiset(e);
    }
    forall a, b | 0 <= a < b < |o|
      ensures o[a].peer != o[b].peer
    {
      var ia :| 0 <= ia < |e| && e[ia] == o[a];
      var ib :| 0 <= ib < |e| && e[ib] == o[b];
      if ia == ib {
        MultisetTwice(o, a, b);
        SingleInDistinct(e, ia);
        assert false;
      }
    }
    forall j | 0 <= j < |ts|
      ensures HasPeer(o, ts[j].peer)
    {
      assert HasPeer(e, ts[j].peer);
      var k :| 0 <= k < |e| && e[k].peer == ts[j].peer;
      assert e[k] in multiset(o);
      var k' :| 0 <= k' < |o| && o[k'] == e[k];
    }
  }

  lemma MultisetTwice<T>(s: seq<T>, a: nat, b: nat)
    requires a < b < |s| && s[a] == s[b]
    ensures multiset(s)[s[a]] >= 2
  {
    assert s == s[..a] + [s[a]] + s[a + 1..b] + [s[b]] + s[b + 1..];
  }

  lemma SingleInDistinct(e: seq<Thread>, i: nat)
    requires DistinctPeers(e) && i < |e|
    ensures multiset(e)[e[i]] == 1
  {
    assert e == e[..i] + [e[i]] + e[i + 1..];
    forall j | 0 <= j < i
      ensures e[..i][j] != e[i]
    {
      assert e[j].peer != e[i].peer;
    }
    var tail := e[i + 1..];
    forall j | 0 <= j < |tail|
      ensures tail[j] != e[i]
    {
      assert tail[j] == e[i + 1 + j];
    }
    assert e[i] !in e[..i] && e[i] !in tail;
  }
}
