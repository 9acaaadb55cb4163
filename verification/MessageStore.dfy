/** The message buffer and its records as objects: records are shared, and confirming a message writes to the record
    inside the list. */
module MessageStore {
  import opened Wrappers
  import MB = MessageBuffer

  class ChattingTextMsg {
    var status: bool
    var uniqueId: string
    var msgId: string
    const content: string

    constructor (uniqueId: string, content: string)
      ensures !status && this.uniqueId == uniqueId && msgId == "" && this.content == content
    {
      status, this.uniqueId, msgId, this.content := false, uniqueId, "", content;
    }

    function View(): MB.Record
      reads this
    {
      MB.Record(!status, uniqueId, msgId)
    }

    predicate IsOnLocal()
      reads this
    {
      !status
    }

    method SetMsgId(value: string)
      modifies this
      ensures View() == MB.WithMsgId(old(View()), value)
      ensures msgId == value && !IsOnLocal() && uniqueId == old(uniqueId)
    {
      msgId := value;
      status := true;
    }

    function GetMsgId(): (r: Option<string>)
      reads this
      ensures r.None? <==> View().onLocal
      ensures r.Some? ==> r.value == View().msgId
    {
      if IsOnLocal() then None else Some(msgId)
    }
  }

  class MessageBuffer {
    // the linked list: node numbers in order, and what each node holds
    var order: seq<MB.NodeId>
    var cells: map<MB.NodeId, ChattingTextMsg>
    var localMsgIndex: map<string, MB.NodeId>
    var verifyMessage: map<string, MB.NodeId>
    var lastFetchedMsgId: string
    var next: MB.NodeId

    ghost function View(): MB.Buffer<ChattingTextMsg>
      reads this
    {
      MB.Buffer(order, cells, localMsgIndex, verifyMessage, lastFetchedMsgId, next)
    }

    ghost predicate Valid()
      reads this
    {
      MB.Inv(View())
    }

    constructor ()
      ensures Valid() && View() == MB.Empty(0)
    {
      order, cells, localMsgIndex, verifyMessage, lastFetchedMsgId, next := [], map[], map[], map[], "", 0;
    }

    method InsertLocal(uniqueId: string, node: MB.NodeId) returns (ok: bool)
      modifies this`localMsgIndex
      ensures ok == (uniqueId != "" && uniqueId !in old(localMsgIndex))
      ensures localMsgIndex == if ok then old(localMsgIndex)[uniqueId := node] else old(localMsgIndex)
    {
      if uniqueId == "" {
        return false;
      }
      if uniqueId in localMsgIndex {
        return false;
      }
      localMsgIndex := localMsgIndex[uniqueId := node];
      ok := true;
    }

    method InsertVerified(value: ChattingTextMsg, node: MB.NodeId) returns (ok: bool)
      modifies this`verifyMessage, this`lastFetchedMsgId
      ensures var id := MB.Trimmed(value.msgId);
              && ok == (!value.IsOnLocal() && id != "" && id !in old(verifyMessage))
              && verifyMessage == (if ok then old(verifyMessage)[id := node] else old(verifyMessage))
              && lastFetchedMsgId == if ok then value.msgId else old(lastFetchedMsgId)
    {
      var opt := value.GetMsgId();
      if opt.None? {
        return false;
      }
      var id := MB.Trimmed(opt.value);
      if id == "" {
        return false;
      }
      if id in verifyMessage {
        return false;
      }
      verifyMessage := verifyMessage[id := node];
      lastFetchedMsgId := opt.value;
      ok := true;
    }

    // _insert: append, index, and roll back when indexing fails.
    method Append(value: ChattingTextMsg) returns (ok: bool)
      requires next !in cells
      modifies this
      ensures (View(), ok) == MB.Insert(old(View()), value, value.View())
    {
      var node := next;
      order, cells, next := order + [node], cells[node := value], next + 1;
      if value.IsOnLocal() {
        ok := InsertLocal(value.uniqueId, node);
      } else {
        ok := InsertVerified(value, node);
      }
      if !ok {
        assert cells - {node} == old(cells);
        assert order[..|order| - 1] == old(order);
        order, cells, next := order[..|order| - 1], cells - {node}, node;
      }
    }

    method InsertMessage(value: ChattingTextMsg) returns (ok: bool)
      requires Valid()
      modifies this
      ensures Valid() && (View(), ok) == MB.Insert(old(View()), value, value.View())
    {
      MB.InsertKeepsInv(View(), value, value.View());
      assert next !in cells;
      ok := Append(value);
    }

    /** Never succeeds; writes the server's id into the record exactly when MessageBuffer.Confirms says so. */
    method UpdateVerificationStatus(uniqueId: string, msgId: string) returns (ok: bool)
      requires Valid()
      modifies this, cells.Values
      ensures !ok && View() == old(View())
      ensures MB.Confirms(old(View()), uniqueId, msgId)
              ==> && localMsgIndex[uniqueId] in cells
                  && cells[localMsgIndex[uniqueId]].View()
                     == MB.WithMsgId(old(cells[localMsgIndex[uniqueId]].View()), msgId)
      ensures msgId != "" && uniqueId != "" && uniqueId in old(localMsgIndex) && msgId in old(verifyMessage)
              ==> && localMsgIndex[uniqueId] in cells
                  && cells[localMsgIndex[uniqueId]].msgId == msgId && !cells[localMsgIndex[uniqueId]].IsOnLocal()
      ensures forall m: ChattingTextMsg :: m in cells.Values
                && !(MB.Confirms(View(), uniqueId, msgId) && m == cells[localMsgIndex[uniqueId]])
                ==> m.View() == old(m.View())
    {
      if msgId == "" || uniqueId == "" {
        return false;
      }
      if uniqueId !in localMsgIndex {
        return false;
      }
      if msgId !in verifyMessage {
        return false;
      }
      var node := localMsgIndex[uniqueId];
      assert MB.Has(View(), MB.Local(uniqueId)) && MB.Target(View(), MB.Local(uniqueId)) == node;
      cells[node].SetMsgId(msgId);
      // try_emplace finds the id taken, so the entry is never promoted
      ok := false;
    }

    method DumpAllChatData() returns (all: seq<ChattingTextMsg>)
      requires Valid()
      ensures all == MB.Dump(View())
    {
      all := [];
      for i := 0 to |order|
        invariant |all| == i && forall j :: 0 <= j < i ==> order[j] in cells && all[j] == cells[order[j]]
      {
        assert order[i] in order;
        all := all + [cells[order[i]]];
      }
    }

    method Clear()
      modifies this
      ensures Valid() && View() == MB.Clear(old(View()))
      ensures order == [] && cells == map[] && localMsgIndex == map[] && verifyMessage == map[] && lastFetchedMsgId == ""
    {
      order, cells, localMsgIndex, verifyMessage, lastFetchedMsgId := [], map[], map[], map[], "";
    }
  }
}
