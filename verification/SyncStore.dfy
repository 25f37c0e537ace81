/** The persisted sync cursors and one backfill round of a channel
    (clients/web/src/stores/syncStore.ts, clients/web/src/hooks/useMessageSync.ts). */
module SyncStore {
  import opened MessageOrder
  import opened MessageStore
  import opened MessageLog

  const BACKFILL_LIMIT: int := 200

  datatype Cursors = Cursors(dm: map<string, int>, channel: map<string, int>)

  function CursorIn(m: map<string, int>, key: string): int { if key in m then m[key] else 0 }

  function Advanced(m: map<string, int>, key: string, seqNo: int): map<string, int> {
    if seqNo <= CursorIn(m, key) then m else m[key := seqNo]
  }

  /** The greatest sequence number of a batch, but at least `since`. */
  function MaxFrom(items: seq<Msg>, since: int): int {
    if items == [] then since
    else
      var max := MaxFrom(items[..|items|-1], since);
      if items[|items|-1].seqNo > max then items[|items|-1].seqNo else max
  }

  lemma {:induction false} MaxFromIsMax(items: seq<Msg>, since: int)
    ensures MaxFrom(items, since) >= since && forall m :: m in items ==> m.seqNo <= MaxFrom(items, since)
    ensures MaxFrom(items, since) == since || exists m :: m in items && m.seqNo == MaxFrom(items, since)
  {
    if items != [] {
      MaxFromIsMax(items[..|items|-1], since);
      assert items == items[..|items|-1] + [items[|items|-1]];
    }
  }

  class SyncState {
    var dm: map<string, int>
    var channel: map<string, int>
    var stored: Cursors  // what local storage holds

    constructor (saved: Cursors)
      ensures dm == saved.dm && channel == saved.channel && stored == saved
    {
      dm, channel, stored := saved.dm, saved.channel, saved;
    }

    method AdvanceDM(peerId: string, seqNo: int, storageWorks: bool)
      modifies this`dm, this`stored
      ensures dm == Advanced(old(dm), peerId, seqNo)
      ensures forall k :: k != peerId ==> (k in dm <==> k in old(dm)) && (k in dm ==> dm[k] == old(dm)[k])
      ensures var had := if peerId in old(dm) then old(dm)[peerId] else 0;
              if seqNo > had then peerId in dm && dm[peerId] == seqNo else dm == old(dm)
      ensures stored == if storageWorks && dm != old(dm) then Cursors(dm, channel) else old(stored)
    {
      if seqNo <= CursorIn(dm, peerId) { return; }
      dm := dm[peerId := seqNo];
      if storageWorks { stored := Cursors(dm, channel); }
    }

    method AdvanceChannel(channelId: string, seqNo: int, storageWorks: bool)
      modifies this`channel, this`stored
      ensures channel == Advanced(old(channel), channelId, seqNo)
      ensures forall k :: k != channelId ==>
                (k in channel <==> k in old(channel)) && (k in channel ==> channel[k] == old(channel)[k])
      ensures var had := if channelId in old(channel) then old(channel)[channelId] else 0;
              if seqNo > had then channelId in channel && channel[channelId] == seqNo else channel == old(channel)
      ensures stored == if storageWorks && channel != old(channel) then Cursors(dm, channel) else old(stored)
    {
      if seqNo <= CursorIn(channel, channelId) { return; }
      channel := channel[channelId := seqNo];
      if storageWorks { stored := Cursors(dm, channel); }
    }
  }

  /** What remains of a round once the reply to `since` is in: merge, then advance once by
      the batch maximum. */
  method ApplyRound(store: MessagesStore, sync: SyncState, channelId: string, since: int,
                    items: seq<Msg>, storageWorks: bool)
    modifies store`channelMessages, sync`channel, sync`stored
    ensures store.channelMessages ==
            old(store.channelMessages)[channelId := Step(old(store.ListOf(channelId)), Backfill(items))]
    ensures sync.channel == if MaxFrom(items, since) > since
                            then Advanced(old(sync.channel), channelId, MaxFrom(items, since))
                            else old(sync.channel)
    ensures forall k :: k != channelId ==>
              && (k in sync.channel <==> k in old(sync.channel))
              && (k in sync.channel ==> sync.channel[k] == old(sync.channel)[k])
    ensures sync.stored == if storageWorks && sync.channel != old(sync.channel)
                           then Cursors(sync.dm, sync.channel) else old(sync.stored)
  {
    store.MergeChannelMessages(channelId, items);
    var max := since;
    for i := 0 to |items|
      invariant max == MaxFrom(items[..i], since)
    {
      assert items[..i+1][..i] == items[..i];
      if items[i].seqNo > max { max := items[i].seqNo; }
    }
    assert items[..|items|] == items;
    if max > since { sync.AdvanceChannel(channelId, max, storageWorks); }
  }

  // ---------- Rounds on many scopes ----------

  /** An answered round of one scope, asked with `since`. */
  datatype ScopeRound = ScopeRound(scope: string, since: int, items: seq<Msg>)

  function RoundApplied(m: map<string, int>, r: ScopeRound): map<string, int> {
    if MaxFrom(r.items, r.since) > r.since then Advanced(m, r.scope, MaxFrom(r.items, r.since)) else m
  }

  function RoundsApplied(m: map<string, int>, rs: seq<ScopeRound>): map<string, int> {
    if rs == [] then m else RoundApplied(RoundsApplied(m, rs[..|rs|-1]), rs[|rs|-1])
  }

  /** The seqs by which the rounds of a scope could move its cursor. */
  ghost predicate Offers(r: ScopeRound, scope: string, n: int) {
    r.scope == scope && n > r.since && exists m :: m in r.items && m.seqNo == n
  }

  lemma RoundAppliedIs(m: map<string, int>, r: ScopeRound, k: string)
    ensures var after := RoundApplied(m, r);
            && CursorIn(after, k) >= CursorIn(m, k)
            && (forall n :: Offers(r, k, n) ==> n <= CursorIn(after, k))
            && (CursorIn(after, k) != CursorIn(m, k) ==> Offers(r, k, CursorIn(after, k)))
            && (r.scope != k ==> (k in after <==> k in m))
  {
    MaxFromIsMax(r.items, r.since);
  }

  /** Over any rounds on any scopes, in any order and however old, a scope's cursor never falls
      and ends at the greatest seq that rounds of that very scope brought, if above its start;
      a scope without rounds keeps its entry. */
  lemma {:induction false} CursorsAreIndependent(m: map<string, int>, rs: seq<ScopeRound>, k: string)
    ensures var after := RoundsApplied(m, rs);
            && CursorIn(after, k) >= CursorIn(m, k)
            && (forall r, n :: r in rs && Offers(r, k, n) ==> n <= CursorIn(after, k))
            && (CursorIn(after, k) != CursorIn(m, k) ==>
                  exists r :: r in rs && Offers(r, k, CursorIn(after, k)))
            && ((forall r :: r in rs ==> r.scope != k) ==> (k in after <==> k in m))
  {
    if rs != [] {
      var init, last := rs[..|rs|-1], rs[|rs|-1];
      assert rs == init + [last];
      CursorsAreIndependent(m, init, k);
      RoundAppliedIs(RoundsApplied(m, init), last, k);
    }
  }
}
