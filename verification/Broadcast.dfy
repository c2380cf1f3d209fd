/** The interactive output broadcast (internal/daemon/interactive.go): a bounded tail
    of everything written, fanned out to subscribers without ever blocking. */
module Broadcast {
  import opened Types

  const CHANNEL_CAPACITY: nat := 256
  const DEFAULT_TAIL: nat := 65536

  /** A subscriber's channel: every chunk it was sent, how many of them are not yet
      received, how often it was closed, and how many chunks it missed. */
  datatype Channel = Channel(sent: seq<bytes>, unread: nat, closes: nat, missed: nat)

  /** `subs` are the ids still subscribed; a channel outlives its subscription. */
  datatype State = State(tail: bytes, subs: set<nat>, channels: map<nat, Channel>, nextId: nat, closed: bool)

  const Fresh := State([], {}, map[], 0, false)

  /** The last n bytes. */
  function LastBytes(b: bytes, n: nat): bytes {
    if |b| <= n then b else b[|b| - n..]
  }

  function AppendBoundedTail(tail: bytes, p: bytes, max: nat): bytes {
    LastBytes(tail + p, max)
  }

  /** A send that never blocks: a full channel drops the chunk. */
  function Send(c: Channel, p: bytes): Channel {
    if c.unread < CHANNEL_CAPACITY then c.(sent := c.sent + [p], unread := c.unread + 1)
    else c.(missed := c.missed + 1)
  }

  ghost predicate Inv(s: State) {
    && (forall id: nat :: id in s.channels <==> id < s.nextId)
    && s.subs <= s.channels.Keys
    && (forall id :: id in s.channels ==> s.channels[id].closes == if id in s.subs then 0 else 1)
    && (s.closed ==> s.subs == {})
  }

  function SendTo(s: State, ids: set<nat>, p: bytes): map<nat, Channel> {
    map id | id in s.channels :: if id in ids then Send(s.channels[id], p) else s.channels[id]
  }

  lemma SendOneMore(s: State, ids: set<nat>, id: nat, p: bytes)
    requires id in s.channels && id !in ids
    ensures SendTo(s, ids + {id}, p) == SendTo(s, ids, p)[id := Send(SendTo(s, ids, p)[id], p)]
  {
  }

  function CloseThese(s: State, ids: set<nat>): map<nat, Channel> {
    map id | id in s.channels ::
      if id in ids then s.channels[id].(closes := s.channels[id].closes + 1) else s.channels[id]
  }

  datatype Step =
    | Write(p: bytes)
    | Subscribe
    | Unsubscribe(id: nat)
    | CloseAll
    | Receive(id: nat)

  function Next(max: nat, s: State, step: Step): State {
    match step
    case Write(p) =>
      if s.closed then s
      else s.(tail := AppendBoundedTail(s.tail, p, max), channels := SendTo(s, s.subs, p))
    case Subscribe =>
      if s.closed then s
      else s.(subs := s.subs + {s.nextId}, channels := s.channels[s.nextId := Channel([], 0, 0, 0)],
              nextId := s.nextId + 1)
    case Unsubscribe(id) =>
      if id in s.subs then s.(subs := s.subs - {id}, channels := CloseThese(s, {id})) else s
    case CloseAll =>
      if s.closed then s else s.(closed := true, subs := {}, channels := CloseThese(s, s.subs))
    case Receive(id) =>
      if id in s.channels && s.channels[id].unread > 0
      then s.(channels := s.channels[id := s.channels[id].(unread := s.channels[id].unread - 1)])
      else s
  }

  lemma NextKeepsInv(max: nat, s: State, step: Step)
    requires Inv(s)
    ensures Inv(Next(max, s, step))
  {
  }

  // ---- The broadcast object ----

  class PtyBroadcast {
    const maxTail: nat
    var tail: bytes
    var subs: set<nat>
    var channels: map<nat, Channel>
    var nextId: nat
    var closed: bool

    /** A size that is not positive selects the default. */
    constructor (maxTail: int)
      ensures View() == Fresh
      ensures this.maxTail == if maxTail <= 0 then DEFAULT_TAIL else maxTail
    {
      this.maxTail := if maxTail <= 0 then DEFAULT_TAIL else maxTail;
      tail, subs, channels, nextId, closed := [], {}, map[], 0, false;
    }

    function View(): State
      reads this
    {
      State(tail, subs, channels, nextId, closed)
    }

    method Write(p: bytes) returns (n: nat)
      requires Inv(View())
      modifies this
      ensures n == |p| && View() == Next(maxTail, old(View()), Step.Write(p)) && Inv(View())
    {
      n := |p|;
      NextKeepsInv(maxTail, View(), Step.Write(p));
      if closed {
        return;
      }
      tail := tail + p;
      if |tail| > maxTail {
        tail := tail[|tail| - maxTail..];
      }
      FanOut(p);
    }

    /** Offers the chunk to every subscriber, in no particular order. */
    method FanOut(p: bytes)
      requires subs <= channels.Keys
      modifies this`channels
      ensures channels == SendTo(old(View()), subs, p)
    {
      ghost var s := View();
      var left := subs;
      while left != {}
        invariant left <= subs
        invariant channels == SendTo(s, subs - left, p)
        decreases left
      {
        var id :| id in left;
        SendOneMore(s, subs - left, id, p);
        assert subs - (left - {id}) == subs - left + {id};
        channels := channels[id := Send(channels[id], p)];
        left := left - {id};
      }
      assert subs - {} == subs;
    }

    /** Ends every subscriber's stream, once. */
    method Close()
      requires Inv(View())
      modifies this
      ensures View() == Next(maxTail, old(View()), CloseAll) && Inv(View())
      ensures closed && subs == {} && tail == old(tail)
    {
      NextKeepsInv(maxTail, View(), CloseAll);
      if closed {
        return;
      }
      ghost var s := View();
      closed := true;
      while subs != {}
        invariant subs <= s.subs && nextId == s.nextId && closed && tail == s.tail
        invariant channels == CloseThese(s, s.subs - subs)
        decreases subs
      {
        var id :| id in subs;
        subs := subs - {id};
        channels := channels[id := channels[id].(closes := channels[id].closes + 1)];
        assert s.subs - subs == (s.subs - (subs + {id})) + {id};
      }
      assert s.subs - {} == s.subs;
    }

    /** The retained tail and, unless the broadcast has ended, a new channel. */
    method NewSubscriber() returns (snapshot: bytes, id: Option<nat>)
      requires Inv(View())
      modifies this
      ensures snapshot == old(tail) && id == (if old(closed) then None else Some(old(nextId)))
      ensures View() == Next(maxTail, old(View()), Subscribe) && Inv(View())
      ensures if id.None? then View() == old(View())
              else id.value in subs && channels[id.value] == Channel([], 0, 0, 0)
    {
      NextKeepsInv(maxTail, View(), Subscribe);
      snapshot := tail;
      if closed {
        return snapshot, None;
      }
      id := Some(nextId);
      subs := subs + {nextId};
      channels := channels[nextId := Channel([], 0, 0, 0)];
      nextId := nextId + 1;
    }

    /** What unsubscribing does, however often it is called. */
    method EndSubscription(id: nat)
      requires Inv(View())
      modifies this
      ensures View() == Next(maxTail, old(View()), Unsubscribe(id)) && Inv(View())
      ensures subs == old(subs) - {id} && tail == old(tail) && closed == old(closed)
    {
      NextKeepsInv(maxTail, View(), Unsubscribe(id));
      if id in subs {
        ghost var s := View();
        subs := subs - {id};
        channels := channels[id := channels[id].(closes := channels[id].closes + 1)];
        assert channels == CloseThese(s, {id});
      }
    }
  }

  // ---- Histories ----

  function Run(max: nat, steps: seq<Step>): State {
    if steps == [] then Fresh else Next(max, Run(max, steps[..|steps| - 1]), steps[|steps| - 1])
  }

  lemma {:induction false} RunInv(max: nat, steps: seq<Step>)
    ensures Inv(Run(max, steps))
  {
    if steps != [] {
      RunInv(max, steps[..|steps| - 1]);
      NextKeepsInv(max, Run(max, steps[..|steps| - 1]), steps[|steps| - 1]);
    }
  }

  /** Everything written before the close. */
  function History(max: nat, steps: seq<Step>): bytes {
    if steps == [] then []
    else
      var front := steps[..|steps| - 1];
      var last := steps[|steps| - 1];
      History(max, front) + if last.Write? && !Run(max, front).closed then last.p else []
  }

  /** The last n bytes, or all of them if they are fewer. */
  lemma LastBytesIs(b: bytes, n: nat)
    ensures var t := LastBytes(b, n);
            |t| == (if |b| <= n then |b| else n) && t == b[|b| - |t|..]
  {
  }

  lemma LastOfAppend(h: bytes, p: bytes, n: nat)
    ensures LastBytes(LastBytes(h, n) + p, n) == LastBytes(h + p, n)
  {
    if |h| > n {
      var t := h[|h| - n..];
      assert |t + p| <= |h + p|;
      assert (t + p)[|p|..] == (h + p)[|h + p| - n..];
    }
  }

  /** The retained tail is exactly the last bytes of the whole history. */
  lemma {:induction false} TailIsLastBytes(max: nat, steps: seq<Step>)
    ensures Run(max, steps).tail == LastBytes(History(max, steps), max)
  {
    if steps != [] {
      var front := steps[..|steps| - 1];
      var last := steps[|steps| - 1];
      TailIsLastBytes(max, front);
      if last.Write? && !Run(max, front).closed {
        LastOfAppend(History(max, front), last.p, max);
      } else {
        assert History(max, front) + [] == History(max, front);
      }
    }
  }

  /** The moment a subscriber joined, as the history's length then. */
  function JoinedAt(max: nat, steps: seq<Step>, id: nat): nat {
    if steps == [] then 0
    else
      var front := steps[..|steps| - 1];
      if id !in Run(max, front).channels then |History(max, steps)| else JoinedAt(max, front, id)
  }

  /** The snapshot it was given. */
  function Snapshot(max: nat, steps: seq<Step>, id: nat): bytes {
    if steps == [] then []
    else
      var front := steps[..|steps| - 1];
      if id !in Run(max, front).channels then Run(max, front).tail else Snapshot(max, front, id)
  }

  /** The history's length when its subscription ended, or now. */
  function LeftAt(max: nat, steps: seq<Step>, id: nat): nat {
    if steps == [] then 0
    else if id in Run(max, steps).subs then |History(max, steps)|
    else LeftAt(max, steps[..|steps| - 1], id)
  }

  /** Every chunk written while it was subscribed. */
  function Offered(max: nat, steps: seq<Step>, id: nat): seq<bytes> {
    if steps == [] then []
    else
      var front := steps[..|steps| - 1];
      var last := steps[|steps| - 1];
      Offered(max, front, id) + if last.Write? && id in Run(max, front).subs then [last.p] else []
  }

  function Flatten(chunks: seq<bytes>): bytes {
    if chunks == [] then [] else Flatten(chunks[..|chunks| - 1]) + chunks[|chunks| - 1]
  }

  lemma FlattenOne(chunks: seq<bytes>, p: bytes)
    ensures Flatten(chunks + [p]) == Flatten(chunks) + p
  {
    assert (chunks + [p])[..|chunks|] == chunks;
  }

  /** xs is ys with some chunks left out. */
  predicate Subsequence(xs: seq<bytes>, ys: seq<bytes>) {
    if xs == [] then true
    else if ys == [] then false
    else if xs[|xs| - 1] == ys[|ys| - 1] && Subsequence(xs[..|xs| - 1], ys[..|ys| - 1]) then true
    else Subsequence(xs, ys[..|ys| - 1])
  }

  lemma SubsequenceGrows(xs: seq<bytes>, ys: seq<bytes>, p: bytes)
    requires Subsequence(xs, ys)
    ensures Subsequence(xs, ys + [p]) && Subsequence(xs + [p], ys + [p])
  {
    assert (xs + [p])[..|xs|] == xs && (ys + [p])[..|ys|] == ys;
  }

  /** What a subscriber has been given, against the history. */
  predicate SeesHistory(max: nat, steps: seq<Step>, id: nat) {
    var s := Run(max, steps);
    id in s.channels ==>
      var c := s.channels[id];
      var h := History(max, steps);
      var snapshot := Snapshot(max, steps, id);
      var from := JoinedAt(max, steps, id);
      var upTo := LeftAt(max, steps, id);
      && |snapshot| <= from <= upTo <= |h|
      && snapshot == LastBytes(h[..from], max)
      && Flatten(Offered(max, steps, id)) == h[from..upTo]
      && |c.sent| + c.missed == |Offered(max, steps, id)|
      && Subsequence(c.sent, Offered(max, steps, id))
      && (c.missed == 0 ==> c.sent == Offered(max, steps, id))
  }

  lemma {:induction false} SubscriberSeesHistory(max: nat, steps: seq<Step>, id: nat)
    ensures SeesHistory(max, steps, id)
  {
    if steps != [] {
      var front := steps[..|steps| - 1];
      var last := steps[|steps| - 1];
      SubscriberSeesHistory(max, front, id);
      RunInv(max, front);
      var s := Run(max, front);
      if id !in s.channels {
        Joining(max, steps, id);
      } else if last.Write? && id in s.subs {
        Hearing(max, steps, id);
      } else {
        Passing(max, steps, id);
      }
    }
  }

  lemma Joining(max: nat, steps: seq<Step>, id: nat)
    requires steps != [] && id !in Run(max, steps[..|steps| - 1]).channels
    ensures SeesHistory(max, steps, id)
  {
    var front := steps[..|steps| - 1];
    RunInv(max, front);
    if id in Run(max, steps).channels {
      var h := History(max, front);
      JoinsNow(max, steps, id);
      NeverOffered(max, front, id);
      TailIsLastBytes(max, front);
      assert h[..|h|] == h && h[|h|..|h|] == [];
    }
  }

  /** The step that creates a channel writes nothing. */
  lemma JoinsNow(max: nat, steps: seq<Step>, id: nat)
    requires steps != [] && Inv(Run(max, steps[..|steps| - 1]))
    requires id !in Run(max, steps[..|steps| - 1]).channels && id in Run(max, steps).channels
    ensures steps[|steps| - 1].Subscribe?
    ensures History(max, steps) == History(max, steps[..|steps| - 1])
    ensures Offered(max, steps, id) == Offered(max, steps[..|steps| - 1], id)
    ensures Run(max, steps).channels[id] == Channel([], 0, 0, 0) && id in Run(max, steps).subs
  {
  }

  lemma {:induction false} NeverOffered(max: nat, steps: seq<Step>, id: nat)
    requires id !in Run(max, steps).channels
    ensures Offered(max, steps, id) == []
  {
    if steps != [] {
      RunInv(max, steps[..|steps| - 1]);
      NeverOffered(max, steps[..|steps| - 1], id);
    }
  }

  /** While subscribed, the subscription has not ended. */
  lemma LeftIsNow(max: nat, steps: seq<Step>, id: nat)
    requires id in Run(max, steps).subs
    ensures LeftAt(max, steps, id) == |History(max, steps)|
  {
  }

  lemma Hearing(max: nat, steps: seq<Step>, id: nat)
    requires steps != [] && steps[|steps| - 1].Write?
    requires SeesHistory(max, steps[..|steps| - 1], id) && Inv(Run(max, steps[..|steps| - 1]))
    requires id in Run(max, steps[..|steps| - 1]).subs
    ensures SeesHistory(max, steps, id)
  {
    var front := steps[..|steps| - 1];
    var p := steps[|steps| - 1].p;
    var s := Run(max, front);
    var t := Run(max, steps);
    var h := History(max, front);
    assert History(max, steps) == h + p;
    LeftIsNow(max, front, id);
    LeftIsNow(max, steps, id);
    assert t.channels[id] == Send(s.channels[id], p);
    assert Offered(max, steps, id) == Offered(max, front, id) + [p];
    Heard(h, p, JoinedAt(max, front, id), Offered(max, front, id), s.channels[id]);
  }

  lemma Heard(h: bytes, p: bytes, from: nat, offered: seq<bytes>, c: Channel)
    requires from <= |h| && Flatten(offered) == h[from..] && Subsequence(c.sent, offered)
    ensures (h + p)[..from] == h[..from]
    ensures Flatten(offered + [p]) == (h + p)[from..]
    ensures Subsequence(Send(c, p).sent, offered + [p])
  {
    FlattenOne(offered, p);
    SubsequenceGrows(c.sent, offered, p);
  }

  lemma Passing(max: nat, steps: seq<Step>, id: nat)
    requires steps != []
    requires SeesHistory(max, steps[..|steps| - 1], id) && Inv(Run(max, steps[..|steps| - 1]))
    requires var s := Run(max, steps[..|steps| - 1]);
             id in s.channels && !(steps[|steps| - 1].Write? && id in s.subs)
    ensures SeesHistory(max, steps, id)
  {
    var front := steps[..|steps| - 1];
    var s := Run(max, front);
    var t := Run(max, steps);
    var h := History(max, front);
    var from, upTo := JoinedAt(max, front, id), LeftAt(max, front, id);
    assert Offered(max, steps, id) == Offered(max, front, id);
    ChannelKept(max, s, steps[|steps| - 1], id);
    LeftStays(max, steps, id);
    assert History(max, steps)[..from] == h[..from] && History(max, steps)[from..upTo] == h[from..upTo];
  }

  lemma ChannelKept(max: nat, s: State, step: Step, id: nat)
    requires Inv(s) && id in s.channels && !(step.Write? && id in s.subs)
    ensures var t := Next(max, s, step);
            && id in t.channels && (id in t.subs ==> id in s.subs)
            && t.channels[id].sent == s.channels[id].sent && t.channels[id].missed == s.channels[id].missed
  {
  }

  lemma LeftStays(max: nat, steps: seq<Step>, id: nat)
    requires steps != [] && Inv(Run(max, steps[..|steps| - 1]))
    requires var s := Run(max, steps[..|steps| - 1]);
             id in s.channels && !(steps[|steps| - 1].Write? && id in s.subs)
    ensures LeftAt(max, steps, id) == LeftAt(max, steps[..|steps| - 1], id)
    ensures History(max, steps[..|steps| - 1]) <= History(max, steps)
  {
    var front := steps[..|steps| - 1];
    ChannelKept(max, Run(max, front), steps[|steps| - 1], id);
    if id in Run(max, steps).subs {
      LeftIsNow(max, front, id);
      assert History(max, steps) == History(max, front);
    }
  }

  /** A subscriber that never overflowed has, in its snapshot and its chunks, a gapless
      and duplicate-free stretch of the history, ending now or where it left; one that
      overflowed has a subsequence of the chunks. */
  lemma GaplessUnlessOverflowed(max: nat, steps: seq<Step>, id: nat)
    requires id in Run(max, steps).channels
    ensures var c := Run(max, steps).channels[id];
            var h := History(max, steps);
            var seen := Snapshot(max, steps, id) + Flatten(c.sent);
            var upTo := LeftAt(max, steps, id);
            && upTo <= |h|
            && (c.missed == 0 ==> |seen| <= upTo && seen == h[upTo - |seen|..upTo])
            && (id in Run(max, steps).subs ==> upTo == |h|)
            && Subsequence(c.sent, Offered(max, steps, id))
  {
    SubscriberSeesHistory(max, steps, id);
    var from, upTo := JoinedAt(max, steps, id), LeftAt(max, steps, id);
    if Run(max, steps).channels[id].missed == 0 {
      Stretch(History(max, steps), max, from, upTo);
    }
    if id in Run(max, steps).subs {
      LeftIsNow(max, steps, id);
    }
  }

  /** The last bytes before a point, followed by the bytes after it, are contiguous. */
  lemma Stretch(h: bytes, n: nat, from: nat, upTo: nat)
    requires from <= upTo <= |h|
    ensures var seen := LastBytes(h[..from], n) + h[from..upTo];
            |seen| <= upTo && seen == h[upTo - |seen|..upTo]
  {
    var tail := LastBytes(h[..from], n);
    assert tail == h[from - |tail|..from];
    assert h[from - |tail|..from] + h[from..upTo] == h[from - |tail|..upTo];
  }

  // ---- Who misses what ----

  /** How many chunks wait unread in a channel, from the writes and receives alone: a
      write adds one unless 256 are waiting, a receive takes one if any is. */
  function Backlog(max: nat, steps: seq<Step>, id: nat): nat {
    if steps == [] then 0
    else
      var front := steps[..|steps| - 1];
      var last := steps[|steps| - 1];
      var before := Backlog(max, front, id);
      if last.Write? && id in Run(max, front).subs && before < 256 then before + 1
      else if last == Receive(id) && before > 0 then before - 1
      else before
  }

  /** The chunks written while it was subscribed and fewer than 256 waited. */
  function Delivered(max: nat, steps: seq<Step>, id: nat): seq<bytes> {
    if steps == [] then []
    else
      var front := steps[..|steps| - 1];
      var last := steps[|steps| - 1];
      Delivered(max, front, id) +
      if last.Write? && id in Run(max, front).subs && Backlog(max, front, id) < 256 then [last.p] else []
  }

  /** How often it received a chunk. */
  function Taken(max: nat, steps: seq<Step>, id: nat): nat {
    if steps == [] then 0
    else
      var front := steps[..|steps| - 1];
      Taken(max, front, id) + if steps[|steps| - 1] == Receive(id) && Backlog(max, front, id) > 0 then 1 else 0
  }

  /** A channel holds exactly the chunks written while fewer than 256 waited in it, less
      those received; it missed the others, and only those. */
  predicate ChannelIs(max: nat, steps: seq<Step>, id: nat) {
    var s := Run(max, steps);
    if id in s.channels then
      var c := s.channels[id];
      && c.unread == Backlog(max, steps, id) && c.unread <= 256
      && c.sent == Delivered(max, steps, id)
      && c.missed == |Offered(max, steps, id)| - |Delivered(max, steps, id)|
      && c.unread == |c.sent| - Taken(max, steps, id)
    else Backlog(max, steps, id) == 0 && Delivered(max, steps, id) == [] && Taken(max, steps, id) == 0
  }

  lemma {:induction false} ChannelHoldsExactly(max: nat, steps: seq<Step>, id: nat)
    ensures ChannelIs(max, steps, id)
  {
    if steps != [] {
      var front := steps[..|steps| - 1];
      var last := steps[|steps| - 1];
      ChannelHoldsExactly(max, front, id);
      RunInv(max, front);
      if id !in Run(max, steps).channels {
        assert id !in Run(max, front).channels;
      } else if id !in Run(max, front).channels {
        JoinsNow(max, steps, id);
        NeverOffered(max, front, id);
      } else {
        ChannelStep(max, steps, id);
      }
    }
  }

  lemma ChannelStep(max: nat, steps: seq<Step>, id: nat)
    requires steps != [] && Inv(Run(max, steps[..|steps| - 1])) && id in Run(max, steps[..|steps| - 1]).channels
    requires ChannelIs(max, steps[..|steps| - 1], id)
    ensures id in Run(max, steps).channels && ChannelIs(max, steps, id)
  {
    var s := Run(max, steps[..|steps| - 1]);
    if steps[|steps| - 1].Write? && id in s.subs {
      ChannelHears(max, steps, id);
    } else {
      ChannelPasses(max, steps, id);
    }
  }

  lemma ChannelHears(max: nat, steps: seq<Step>, id: nat)
    requires steps != [] && steps[|steps| - 1].Write? && Inv(Run(max, steps[..|steps| - 1]))
    requires id in Run(max, steps[..|steps| - 1]).subs
    requires ChannelIs(max, steps[..|steps| - 1], id)
    ensures id in Run(max, steps).channels && ChannelIs(max, steps, id)
  {
    var front := steps[..|steps| - 1];
    var p := steps[|steps| - 1].p;
    var s := Run(max, front);
    assert Run(max, steps).channels[id] == Send(s.channels[id], p);
    assert Offered(max, steps, id) == Offered(max, front, id) + [p];
    if Backlog(max, front, id) >= 256 {
      assert Delivered(max, front, id) + [] == Delivered(max, front, id);
    }
  }

  /** What any other step does to a channel. */
  lemma ChannelAfter(max: nat, s: State, step: Step, id: nat)
    requires Inv(s) && id in s.channels && !(step.Write? && id in s.subs)
    ensures var t := Next(max, s, step);
            var c := s.channels[id];
            && id in t.channels && t.channels[id].sent == c.sent && t.channels[id].missed == c.missed
            && t.channels[id].unread == if step == Receive(id) && c.unread > 0 then c.unread - 1 else c.unread
  {
  }

  lemma ChannelPasses(max: nat, steps: seq<Step>, id: nat)
    requires steps != [] && Inv(Run(max, steps[..|steps| - 1])) && id in Run(max, steps[..|steps| - 1]).channels
    requires !(steps[|steps| - 1].Write? && id in Run(max, steps[..|steps| - 1]).subs)
    requires ChannelIs(max, steps[..|steps| - 1], id)
    ensures id in Run(max, steps).channels && ChannelIs(max, steps, id)
  {
    var front := steps[..|steps| - 1];
    ChannelAfter(max, Run(max, front), steps[|steps| - 1], id);
    assert Delivered(max, front, id) + [] == Delivered(max, front, id);
    assert Offered(max, front, id) + [] == Offered(max, front, id);
  }

  /** It never had 256 chunks waiting when another was written. */
  predicate KeptUp(max: nat, steps: seq<Step>, id: nat) {
    steps == [] ||
    (var front := steps[..|steps| - 1];
     && KeptUp(max, front, id)
     && (steps[|steps| - 1].Write? && id in Run(max, front).subs ==> Backlog(max, front, id) < 256))
  }

  /** A subscriber missed nothing exactly when it kept up. */
  lemma {:induction false} MissedNothingIff(max: nat, steps: seq<Step>, id: nat)
    ensures KeptUp(max, steps, id) <==> Delivered(max, steps, id) == Offered(max, steps, id)
    ensures |Delivered(max, steps, id)| <= |Offered(max, steps, id)|
  {
    if steps != [] {
      var front := steps[..|steps| - 1];
      var last := steps[|steps| - 1];
      var got, all := Delivered(max, front, id), Offered(max, front, id);
      MissedNothingIff(max, front, id);
      assert got + [] == got && all + [] == all;
      if last.Write? && id in Run(max, front).subs {
        SameLast(got, all, last.p);
      }
    }
  }

  lemma SameLast(xs: seq<bytes>, ys: seq<bytes>, p: bytes)
    ensures xs + [p] == ys + [p] <==> xs == ys
    ensures |xs| <= |ys| ==> xs != ys + [p]
  {
    if xs + [p] == ys + [p] {
      assert xs == (xs + [p])[..|xs|] && ys == (ys + [p])[..|ys|];
    }
  }

  /** So one that kept up has, in its snapshot and its chunks, the whole stretch of the
      history it was there for. */
  lemma KeepingUpSeesAll(max: nat, steps: seq<Step>, id: nat)
    requires id in Run(max, steps).channels && KeptUp(max, steps, id)
    ensures var c := Run(max, steps).channels[id];
            var h := History(max, steps);
            var seen := Snapshot(max, steps, id) + Flatten(c.sent);
            var upTo := LeftAt(max, steps, id);
            c.missed == 0 && |seen| <= upTo <= |h| && seen == h[upTo - |seen|..upTo]
  {
    ChannelHoldsExactly(max, steps, id);
    MissedNothingIff(max, steps, id);
    GaplessUnlessOverflowed(max, steps, id);
  }

  /** No order of Close and unsubscribe closes a channel twice, and every channel is
      closed exactly when its subscription is over. */
  lemma ClosedAtMostOnce(max: nat, steps: seq<Step>, id: nat)
    requires id in Run(max, steps).channels
    ensures Run(max, steps).channels[id].closes == if id in Run(max, steps).subs then 0 else 1
  {
    RunInv(max, steps);
  }
}
