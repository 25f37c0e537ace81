/** The client's message lists: local sequence numbers, merge by id, and the store actions
    (clients/web/src/stores/messagesStore.ts, clients/web/src/hooks/useMessageSend.ts). */
module MessageStore {
  import opened Wrappers
  import opened MessageOrder

  // ---------- Specification functions ----------

  /** The highest server sequence number in a list, 0 when there is none. */
  function MaxSeq(s: seq<Msg>): int {
    if s == [] then 0
    else
      var max := MaxSeq(s[..|s|-1]);
      if HasSeq(s[|s|-1]) && s[|s|-1].seqNo > max then s[|s|-1].seqNo else max
  }

  lemma {:induction false} MaxSeqIsMax(s: seq<Msg>)
    ensures MaxSeq(s) >= 0 && forall m :: m in s && HasSeq(m) ==> m.seqNo <= MaxSeq(s)
  {
    if s != [] {
      MaxSeqIsMax(s[..|s|-1]);
      assert s == s[..|s|-1] + [s[|s|-1]];
    }
  }

  lemma {:induction false} MaxSeqIsAttained(s: seq<Msg>)
    ensures MaxSeq(s) == 0 || exists m :: m in s && HasSeq(m) && m.seqNo == MaxSeq(s)
  {
    if s != [] {
      MaxSeqIsAttained(s[..|s|-1]);
      assert s == s[..|s|-1] + [s[|s|-1]];
    }
  }

  function Local(existing: seq<Msg>, m: Msg): Msg {
    if HasSeq(m) then m else m.(seqNo := MaxSeq(existing) + 1)
  }

  /** `Map.set` on an insertion-ordered map, kept as its list of values: a known id keeps
      its place and changes value, a new id goes last. */
  function Put(s: seq<Msg>, m: Msg): seq<Msg> {
    if s == [] then [m]
    else if s[0].id == m.id then [m] + s[1..]
    else [s[0]] + Put(s[1..], m)
  }

  /** `Map.get`: the value stored under an id, as a list of at most one message. */
  function Get(s: seq<Msg>, id: string): seq<Msg> {
    if s == [] then [] else if s[0].id == id then [s[0]] else Get(s[1..], id)
  }

  function PutAll(s: seq<Msg>, t: seq<Msg>): seq<Msg> {
    if t == [] then s else Put(PutAll(s, t[..|t|-1]), t[|t|-1])
  }

  function Absorb(s: seq<Msg>, m: Msg): seq<Msg> {
    var cur := Get(s, m.id);
    if cur != [] && HasSeq(cur[0]) && !HasSeq(m) then s else Put(s, m)
  }

  function AbsorbAll(s: seq<Msg>, t: seq<Msg>): seq<Msg> {
    if t == [] then s else Absorb(AbsorbAll(s, t[..|t|-1]), t[|t|-1])
  }

  function Merge(existing: seq<Msg>, incoming: seq<Msg>): seq<Msg> {
    StableSort(AbsorbAll(PutAll([], existing), incoming))
  }

  function Append(existing: seq<Msg>, m: Msg): seq<Msg> { Merge(existing, [Local(existing, m)]) }

  function Remove(existing: seq<Msg>, id: string): seq<Msg> {
    Filter((m: Msg) => m.id != id, existing)
  }

  /** Everything that changes one scope's list. An `Ack` carries the optimistic message
      with the id and seq of the acknowledgement filled in. */
  datatype Event =
    | Load(history: seq<Msg>)
    | Push(m: Msg)
    | Backfill(batch: seq<Msg>)
    | Delete(id: string)
    | Send(optimistic: Msg)
    | Ack(tempId: string, acked: Msg)

  predicate Reconciles(tempId: string, acked: Msg) { acked.id != "" && acked.id != tempId }

  function Step(s: seq<Msg>, e: Event): seq<Msg> {
    match e
    case Load(history) => StableSort(history)
    case Push(m) => Append(s, m)
    case Backfill(batch) => Merge(s, batch)
    case Delete(id) => Remove(s, id)
    case Send(m) => Append(s, m)
    case Ack(t, acked) => if Reconciles(t, acked) then Append(Remove(s, t), acked) else s
  }

  function Run(s: seq<Msg>, es: seq<Event>): seq<Msg> {
    if es == [] then s else Step(Run(s, es[..|es|-1]), es[|es|-1])
  }

  // ---------- The store ----------

  method WithLocalSeq(existing: seq<Msg>, m: Msg) returns (r: Msg)
    ensures r == Local(existing, m)
    ensures HasSeq(m) ==> r == m
    ensures !HasSeq(m) ==>
              && r == m.(seqNo := r.seqNo) && r.seqNo >= 1
              && (forall x :: x in existing && HasSeq(x) ==> x.seqNo < r.seqNo)
              && (r.seqNo == 1 || exists x :: x in existing && x.seqNo == r.seqNo - 1)
  {
    if HasSeq(m) { return m; }
    var max := 0;
    for i := 0 to |existing|
      invariant max == MaxSeq(existing[..i])
    {
      assert existing[..i+1][..i] == existing[..i];
      if HasSeq(existing[i]) && existing[i].seqNo > max { max := existing[i].seqNo; }
    }
    assert existing[..|existing|] == existing;
    MaxSeqIsMax(existing);
    MaxSeqIsAttained(existing);
    r := m.(seqNo := max + 1);
  }

  method MergeByIdSeq(existing: seq<Msg>, incoming: seq<Msg>) returns (merged: seq<Msg>)
    ensures merged == Merge(existing, incoming)
    ensures Sorted(merged) && DistinctIds(merged) && Ids(merged) == Ids(existing) + Ids(incoming)
  {
    var byId := [];
    for i := 0 to |existing|
      invariant byId == PutAll([], existing[..i])
    {
      assert existing[..i+1][..i] == existing[..i];
      byId := Put(byId, existing[i]);
    }
    assert existing[..|existing|] == existing;
    ghost var start := byId;
    for i := 0 to |incoming|
      invariant byId == AbsorbAll(start, incoming[..i])
    {
      assert incoming[..i+1][..i] == incoming[..i];
      var m := incoming[i];
      var cur := Get(byId, m.id);
      if cur != [] && HasSeq(cur[0]) && !HasSeq(m) { continue; }
      byId := Put(byId, m);
    }
    assert incoming[..|incoming|] == incoming;
    merged := StableSort(byId);
    MergeShape(existing, incoming);
  }

  datatype SendStatus = Sending | Sent | Failed

  class MessagesStore {
    var channelMessages: map<string, seq<Msg>>
    var messageStatus: map<string, SendStatus>

    function ListOf(channelId: string): seq<Msg>
      reads this
    {
      if channelId in channelMessages then channelMessages[channelId] else []
    }

    constructor ()
      ensures channelMessages == map[] && messageStatus == map[]
    {
      channelMessages, messageStatus := map[], map[];
    }

    method SetChannelMessages(channelId: string, messages: seq<Msg>)
      modifies this`channelMessages
      ensures channelMessages ==
              old(channelMessages)[channelId := Step(old(ListOf(channelId)), Load(messages))]
    {
      channelMessages := channelMessages[channelId := StableSort(messages)];
    }

    method AppendChannelMessage(channelId: string, message: Msg)
      modifies this`channelMessages
      ensures channelMessages ==
              old(channelMessages)[channelId := Step(old(ListOf(channelId)), Push(message))]
    {
      var existing := ListOf(channelId);
      var m := WithLocalSeq(existing, message);
      var merged := MergeByIdSeq(existing, [m]);
      channelMessages := channelMessages[channelId := merged];
    }

    method MergeChannelMessages(channelId: string, incoming: seq<Msg>)
      modifies this`channelMessages
      ensures channelMessages ==
              old(channelMessages)[channelId := Step(old(ListOf(channelId)), Backfill(incoming))]
    {
      var merged := MergeByIdSeq(ListOf(channelId), incoming);
      channelMessages := channelMessages[channelId := merged];
    }

    method RemoveChannelMessage(channelId: string, id: string)
      modifies this`channelMessages
      ensures channelMessages ==
              old(channelMessages)[channelId := Step(old(ListOf(channelId)), Delete(id))]
    {
      channelMessages := channelMessages[channelId := Remove(ListOf(channelId), id)];
    }

    method SetMessageStatus(id: string, status: SendStatus)
      modifies this`messageStatus
      ensures messageStatus == old(messageStatus)[id := status]
    {
      messageStatus := messageStatus[id := status];
    }

    method RemoveMessageStatus(id: string)
      modifies this`messageStatus
      ensures messageStatus == old(messageStatus) - {id}
    {
      messageStatus := messageStatus - {id};
    }

    /** Replaces an optimistic message by the acknowledged one and moves its status over. */
    method Reconcile(channelId: string, tempId: string, ackId: string, ackSeq: int, optimistic: Msg)
      modifies this
      ensures var acked := optimistic.(id := ackId, seqNo := ackSeq);
              if Reconciles(tempId, acked) then
                && channelMessages ==
                   old(channelMessages)[channelId := Step(old(ListOf(channelId)), Ack(tempId, acked))]
                && messageStatus == old(messageStatus)[ackId := Sent] - {tempId}
              else
                && channelMessages == old(channelMessages)
                && messageStatus == old(messageStatus)[tempId := Sent]
    {
      if ackId != "" && ackId != tempId {
        ghost var list := ListOf(channelId);
        RemoveChannelMessage(channelId, tempId);
        assert ListOf(channelId) == Remove(list, tempId);
        AppendChannelMessage(channelId, optimistic.(id := ackId, seqNo := ackSeq));
        SetMessageStatus(ackId, Sent);
        RemoveMessageStatus(tempId);
      } else {
        SetMessageStatus(tempId, Sent);
      }
    }

    /** Retrying a failed send: finds the optimistic message and marks it as being sent. */
    method BeginRetry(channelId: string, tempId: string) returns (existing: seq<Msg>)
      modifies this`messageStatus
      ensures existing == Get(ListOf(channelId), tempId)
      ensures messageStatus == if existing == [] then old(messageStatus) else old(messageStatus)[tempId := Sending]
    {
      existing := Get(ListOf(channelId), tempId);
      if existing != [] { SetMessageStatus(tempId, Sending); }
    }

    /** The second half of a retry: `ack` is none when the send threw. */
    method SettleRetry(channelId: string, tempId: string, existing: Msg, ack: Option<(string, int)>)
      modifies this
      ensures ack.None? ==>
                channelMessages == old(channelMessages) && messageStatus == old(messageStatus)[tempId := Failed]
      ensures ack.Some? ==>
                var acked := existing.(id := ack.value.0, seqNo := ack.value.1);
                if Reconciles(tempId, acked) then
                  && channelMessages ==
                     old(channelMessages)[channelId := Step(old(ListOf(channelId)), Ack(tempId, acked))]
                  && messageStatus == old(messageStatus)[acked.id := Sent] - {tempId}
                else
                  && channelMessages == old(channelMessages)
                  && messageStatus == old(messageStatus)[tempId := Sent]
    {
      if ack.None? {
        SetMessageStatus(tempId, Failed);
      } else {
        Reconcile(channelId, tempId, ack.value.0, ack.value.1, existing);
      }
    }
  }

  // ---------- What a merge holds ----------

  function Ids(s: seq<Msg>): set<string> { set m | m in s :: m.id }

  ghost predicate DistinctIds(s: seq<Msg>) {
    forall i, j :: 0 <= i < j < |s| ==> s[i].id != s[j].id
  }

  lemma {:induction false} PutShape(s: seq<Msg>, m: Msg)
    ensures DistinctIds(s) ==> DistinctIds(Put(s, m))
    ensures forall x :: x in Put(s, m) ==> x == m || x in s
    ensures m in Put(s, m) && forall x :: x in s && x.id != m.id ==> x in Put(s, m)
    ensures forall id :: id in Ids(Put(s, m)) <==> id == m.id || id in Ids(s)
  {
    if s != [] && s[0].id != m.id {
      PutShape(s[1..], m);
      assert s == [s[0]] + s[1..];
    } else if s != [] {
      assert s == [s[0]] + s[1..];
    }
  }

  lemma IdsSnoc(s: seq<Msg>)
    requires s != []
    ensures Ids(s) == Ids(s[..|s|-1]) + {s[|s|-1].id}
  {
    assert s == s[..|s|-1] + [s[|s|-1]];
  }

  lemma {:induction false} PutAllShape(s: seq<Msg>, t: seq<Msg>)
    requires DistinctIds(s)
    ensures DistinctIds(PutAll(s, t)) && Ids(PutAll(s, t)) == Ids(s) + Ids(t)
  {
    if t != [] {
      var n := |t| - 1;
      PutAllShape(s, t[..n]);
      PutShape(PutAll(s, t[..n]), t[n]);
      IdsSnoc(t);
    }
  }

  lemma {:induction false} GetIn(s: seq<Msg>, id: string)
    ensures Get(s, id) == [] <==> id !in Ids(s)
    ensures Get(s, id) != [] ==> |Get(s, id)| == 1 && Get(s, id)[0] in s && Get(s, id)[0].id == id
  {
    if s != [] && s[0].id != id {
      GetIn(s[1..], id);
      assert s == [s[0]] + s[1..];
    }
  }

  lemma AbsorbShape(s: seq<Msg>, m: Msg)
    requires DistinctIds(s)
    ensures DistinctIds(Absorb(s, m)) && Ids(Absorb(s, m)) == Ids(s) + {m.id}
  {
    PutShape(s, m);
    GetIn(s, m.id);
  }

  lemma {:induction false} AbsorbAllShape(s: seq<Msg>, t: seq<Msg>)
    requires DistinctIds(s)
    ensures DistinctIds(AbsorbAll(s, t)) && Ids(AbsorbAll(s, t)) == Ids(s) + Ids(t)
  {
    if t != [] {
      var n := |t| - 1;
      AbsorbAllShape(s, t[..n]);
      AbsorbShape(AbsorbAll(s, t[..n]), t[n]);
      IdsSnoc(t);
    }
  }

  lemma {:induction false} SortKeepsDistinct(s: seq<Msg>)
    requires DistinctIds(s)
    ensures DistinctIds(StableSort(s))
  {
    if s != [] {
      var t, m := s[..|s|-1], s[|s|-1];
      SortKeepsDistinct(t);
      StableSortElements(t);
      InsertKeepsDistinct(m, StableSort(t));
    }
  }

  lemma {:induction false} InsertKeepsDistinct(m: Msg, s: seq<Msg>)
    requires Sorted(s) && DistinctIds(s) && forall x :: x in s ==> x.id != m.id
    ensures DistinctIds(Insert(m, s))
  {
    if s != [] && ByChrono(s[|s|-1], m) > 0 {
      var t, e := s[..|s|-1], s[|s|-1];
      InsertKeepsDistinct(m, t);
      InsertSorted(m, t);
      forall i | 0 <= i < |Insert(m, t)| ensures Insert(m, t)[i].id != e.id {
        assert Insert(m, t)[i] in Insert(m, t);
      }
    }
  }

  lemma MergeShape(existing: seq<Msg>, incoming: seq<Msg>)
    ensures var r := Merge(existing, incoming);
            Sorted(r) && DistinctIds(r) && Ids(r) == Ids(existing) + Ids(incoming)
  {
    PutAllShape([], existing);
    var all := AbsorbAll(PutAll([], existing), incoming);
    AbsorbAllShape(PutAll([], existing), incoming);
    SortKeepsDistinct(all);
    StableSortElements(all);
    SortIds(all);
  }

  lemma SortIds(s: seq<Msg>)
    ensures Ids(StableSort(s)) == Ids(s)
  {
    StableSortElements(s);
    forall m | m in s ensures m.id in Ids(StableSort(s)) { assert m in StableSort(s); }
  }
}
