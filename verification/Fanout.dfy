/** The brain-keyed fan-out hub: subscriber channels by brain, each a bounded
    queue. Publish never blocks; a full queue loses the row. */
module Fanout {
  const FANOUT_BUFFER: nat := 64

  /** Channels are named by numbers; `queues` holds what each has not yet delivered. */
  datatype HubState<R> = HubState(subs: map<string, set<nat>>, queues: map<nat, seq<R>>, nextChan: nat) {
    ghost predicate Valid() {
      && (forall ch :: ch in queues ==> ch < nextChan && |queues[ch]| <= FANOUT_BUFFER)
      && (forall b :: b in subs ==> subs[b] != {} && subs[b] <= queues.Keys)
      && (forall b, c :: b in subs && c in subs && b != c ==> subs[b] !! subs[c])
    }

    function Subscribers(brain: string): set<nat> {
      if brain in subs then subs[brain] else {}
    }

    function Subscribe(brain: string): HubState<R> {
      HubState(subs[brain := Subscribers(brain) + {nextChan}], queues[nextChan := []], nextChan + 1)
    }

    function Cancel(brain: string, ch: nat): HubState<R> {
      if brain !in subs then this
      else if subs[brain] - {ch} == {} then this.(subs := subs - {brain})
      else this.(subs := subs[brain := subs[brain] - {ch}])
    }

    function Publish(brain: string, row: R): HubState<R> {
      this.(queues := map ch | ch in queues ::
        if ch in Subscribers(brain) && |queues[ch]| < FANOUT_BUFFER then queues[ch] + [row] else queues[ch])
    }

    function Receive(ch: nat): HubState<R>
      requires ch in queues && queues[ch] != []
    {
      this.(queues := queues[ch := queues[ch][1..]])
    }
  }

  class Hub<R> {
    var subs: map<string, set<nat>>
    var queues: map<nat, seq<R>>
    var nextChan: nat

    ghost function State(): HubState<R>
      reads this
    {
      HubState(subs, queues, nextChan)
    }

    constructor ()
      ensures State() == HubState(map[], map[], 0) && State().Valid()
    {
      subs, queues, nextChan := map[], map[], 0;
    }

    method Subscribe(brain: string) returns (ch: nat)
      requires State().Valid()
      modifies this
      ensures State().Valid() && State() == old(State()).Subscribe(brain)
      ensures ch !in old(queues) && ch in State().Subscribers(brain) && queues[ch] == []
    {
      ch := nextChan;
      nextChan := nextChan + 1;
      queues := queues[ch := []];
      var group := if brain in subs then subs[brain] else {};
      subs := subs[brain := group + {ch}];
    }

    /** Unregisters the channel; calling it again changes nothing. */
    method Cancel(brain: string, ch: nat)
      requires State().Valid()
      modifies this
      ensures State().Valid() && State() == old(State()).Cancel(brain, ch)
      ensures ch !in State().Subscribers(brain)
    {
      if brain in subs {
        var group := subs[brain] - {ch};
        if group == {} {
          subs := subs - {brain};
        } else {
          subs := subs[brain := group];
        }
      }
    }

    method Publish(brain: string, row: R)
      requires State().Valid()
      modifies this
      ensures State().Valid() && State() == old(State()).Publish(brain, row)
    {
      PublishKeepsValid(State(), brain, row);
      Offer(if brain in subs then subs[brain] else {}, row);
    }

    /** Puts the row in each of the channels that has room, without waiting. */
    method Offer(channels: set<nat>, row: R)
      requires channels <= queues.Keys
      modifies this`queues
      ensures queues == Offered(old(queues), channels, row)
    {
      var todo := channels;
      ghost var before := queues;
      while todo != {}
        invariant todo <= channels && channels <= before.Keys
        invariant queues == Offered(before, channels - todo, row)
        decreases |todo|
      {
        var ch :| ch in todo;
        OfferOne(before, channels - todo, ch, row);
        assert channels - (todo - {ch}) == channels - todo + {ch};
        if |queues[ch]| < FANOUT_BUFFER {
          queues := queues[ch := queues[ch] + [row]];
        }
        todo := todo - {ch};
      }
      assert channels - todo == channels;
    }
  }

  lemma {:induction false} PublishKeepsValid<R>(h: HubState<R>, brain: string, row: R)
    requires h.Valid()
    ensures h.Publish(brain, row).Valid() && h.Publish(brain, row).queues == Offered(h.queues, h.Subscribers(brain), row)
    ensures h.Subscribers(brain) <= h.queues.Keys
  {
  }

  /** The queues after a row was offered to some channels. */
  ghost function Offered<R>(queues: map<nat, seq<R>>, served: set<nat>, row: R): map<nat, seq<R>> {
    map ch | ch in queues :: if ch in served && |queues[ch]| < FANOUT_BUFFER then queues[ch] + [row] else queues[ch]
  }

  lemma {:induction false} OfferOne<R>(queues: map<nat, seq<R>>, served: set<nat>, ch: nat, row: R)
    requires ch in queues && ch !in served
    ensures Offered(queues, served, row)[ch] == queues[ch]
    ensures Offered(queues, served + {ch}, row) ==
            Offered(queues, served, row)[ch := if |queues[ch]| < FANOUT_BUFFER then queues[ch] + [row] else queues[ch]]
  {
  }

  /** Cancelling twice is cancelling once. */
  lemma {:induction false} CancelIsIdempotent<R>(h: HubState<R>, brain: string, ch: nat)
    requires h.Valid()
    ensures h.Cancel(brain, ch).Cancel(brain, ch) == h.Cancel(brain, ch)
  {
    var h1 := h.Cancel(brain, ch);
    if brain in h1.subs {
      assert h1.subs[brain] - {ch} == h1.subs[brain];
      assert h1.subs[brain := h1.subs[brain]] == h1.subs;
    }
  }

  /** A publish reaches the channels of its own brain and no others, and loses the
      row only where the queue is full. */
  lemma {:induction false} PublishReaches<R>(h: HubState<R>, brain: string, row: R, ch: nat)
    requires h.Valid() && ch in h.queues
    ensures h.Publish(brain, row).Valid() && ch in h.Publish(brain, row).queues
    ensures ch in h.Subscribers(brain) && |h.queues[ch]| < 64 ==>
              h.Publish(brain, row).queues[ch] == h.queues[ch] + [row]
    ensures ch in h.Subscribers(brain) && h.Publish(brain, row).queues[ch] == h.queues[ch] ==>
              |h.queues[ch]| == 64
    ensures ch !in h.Subscribers(brain) ==> h.Publish(brain, row).queues[ch] == h.queues[ch]
    ensures forall b :: b != brain && ch in h.Subscribers(b) ==> h.Publish(brain, row).queues[ch] == h.queues[ch]
    ensures forall b :: h.Publish(brain, row).Subscribers(b) == h.Subscribers(b)
  {
    assert |h.queues[ch] + [row]| == |h.queues[ch]| + 1;
  }

  /** A new channel starts empty and disturbs no other. */
  lemma {:induction false} SubscribeAdds<R>(h: HubState<R>, brain: string)
    requires h.Valid()
    ensures h.Subscribe(brain).Valid() && h.nextChan !in h.queues
    ensures h.Subscribe(brain).queues == h.queues[h.nextChan := []]
    ensures forall b :: h.Subscribe(brain).Subscribers(b) ==
                        if b == brain then h.Subscribers(b) + {h.nextChan} else h.Subscribers(b)
  {
    var h' := h.Subscribe(brain);
    forall b | b in h'.subs ensures h'.subs[b] != {} && h'.subs[b] <= h'.queues.Keys {
      assert h.nextChan in h'.subs[brain];
    }
  }

  /** Cancel takes one channel out of one brain's set. */
  lemma {:induction false} CancelRemoves<R>(h: HubState<R>, brain: string, ch: nat)
    requires h.Valid()
    ensures h.Cancel(brain, ch).Valid() && h.Cancel(brain, ch).queues == h.queues
    ensures forall b :: h.Cancel(brain, ch).Subscribers(b) ==
                        if b == brain then h.Subscribers(b) - {ch} else h.Subscribers(b)
  {
  }

  lemma {:induction false} ReceiveTakesHead<R>(h: HubState<R>, ch: nat)
    requires h.Valid() && ch in h.queues && h.queues[ch] != []
    ensures h.Receive(ch).Valid() && h.Receive(ch).queues == h.queues[ch := h.queues[ch][1..]]
    ensures forall b :: h.Receive(ch).Subscribers(b) == h.Subscribers(b)
  {
  }
}
