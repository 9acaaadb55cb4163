/** The client's message buffer: an ordered list of records and two indexes into it, by the identifier the client
    chose for a record not yet confirmed and by the identifier the server gave.  A list iterator is the number of
    its node; nodes hold shared records, so the buffer is generic in what they hold. */
module MessageBuffer {
  import opened Wrappers

  type NodeId = nat

  datatype Buffer<T> = Buffer(order: seq<NodeId>, cells: map<NodeId, T>,
                              local: map<string, NodeId>, verified: map<string, NodeId>,
                              lastFetched: string, next: NodeId)

  function Empty<T>(next: NodeId): Buffer<T> {
    Buffer([], map[], map[], map[], "", next)
  }

  /** What an insertion reads of a record. */
  datatype Record = Record(onLocal: bool, uniqueId: string, msgId: string)

  predicate IsSpace(c: char) {
    c as int in {9, 10, 11, 12, 13, 32, 0x85, 0xA0}
  }

  // QString::trimmed
  function Trimmed(s: string): string {
    if s == "" then ""
    else if IsSpace(s[0]) then Trimmed(s[1..])
    else if IsSpace(s[|s| - 1]) then Trimmed(s[..|s| - 1])
    else s
  }

  ghost predicate AllSpace(s: string) {
    forall i: nat :: i < |s| ==> IsSpace(s[i])
  }

  // s is t with white space around it.
  ghost predicate Pads(s: string, front: string, t: string, back: string) {
    s == front + t + back && AllSpace(front) && AllSpace(back)
  }

  lemma PadFront(c: char, s: string, front: string, t: string, back: string)
    requires IsSpace(c) && Pads(s, front, t, back)
    ensures Pads([c] + s, [c] + front, t, back)
  {
    assert [c] + (front + t + back) == [c] + front + t + back;
  }

  lemma PadBack(c: char, s: string, front: string, t: string, back: string)
    requires IsSpace(c) && Pads(s, front, t, back)
    ensures Pads(s + [c], front, t, back + [c])
  {
    assert front + t + back + [c] == front + t + (back + [c]);
  }

  /** Trimming takes away white space at both ends and nothing else, and leaves none there. */
  lemma {:induction false} TrimmedOutcome(s: string) returns (front: string, back: string)
    ensures s == front + Trimmed(s) + back
    ensures (forall i: nat :: i < |front| ==> IsSpace(front[i])) && (forall i: nat :: i < |back| ==> IsSpace(back[i]))
    ensures Trimmed(s) != "" ==> !IsSpace(Trimmed(s)[0]) && !IsSpace(Trimmed(s)[|Trimmed(s)| - 1])
    decreases |s|
  {
    front, back := "", "";
    if s == "" {
    } else if IsSpace(s[0]) {
      front, back := TrimmedOutcome(s[1..]);
      PadFront(s[0], s[1..], front, Trimmed(s[1..]), back);
      front := [s[0]] + front;
      assert s == [s[0]] + s[1..];
    } else if IsSpace(s[|s| - 1]) {
      var k := |s| - 1;
      front, back := TrimmedOutcome(s[..k]);
      PadBack(s[k], s[..k], front, Trimmed(s[..k]), back);
      back := back + [s[k]];
      assert s == s[..k] + [s[k]];
    } else {
      assert "" + s + "" == s;
    }
  }

  // The key a record is indexed under, None when it cannot be indexed.
  datatype Key = Local(id: string) | Verified(id: string)

  function KeyOf(r: Record): Option<Key> {
    if r.onLocal then if r.uniqueId == "" then None else Some(Local(r.uniqueId))
    else if Trimmed(r.msgId) == "" then None else Some(Verified(Trimmed(r.msgId)))
  }

  predicate Has<T>(b: Buffer<T>, k: Key) {
    match k
    case Local(id) => id in b.local
    case Verified(id) => id in b.verified
  }

  // The iterator an index entry holds.
  function Target<T>(b: Buffer<T>, k: Key): NodeId
    requires Has(b, k)
  {
    match k
    case Local(id) => b.local[id]
    case Verified(id) => b.verified[id]
  }

  predicate Accepts<T>(b: Buffer<T>, r: Record) {
    KeyOf(r).Some? && !Has(b, KeyOf(r).value)
  }

  /** insertMessage: append, index, and take the node out again when indexing fails. */
  function Insert<T>(b: Buffer<T>, value: T, r: Record): (Buffer<T>, bool) {
    if !Accepts(b, r) then (b, false)
    else
      var appended := b.(order := b.order + [b.next], cells := b.cells[b.next := value], next := b.next + 1);
      match KeyOf(r).value
      case Local(id) => (appended.(local := b.local[id := b.next]), true)
      case Verified(id) => (appended.(verified := b.verified[id := b.next], lastFetched := r.msgId), true)
  }

  function Clear<T>(b: Buffer<T>): Buffer<T> {
    Empty(b.next)
  }

  // The conditions under which updateVerificationStatus writes to a record.
  predicate Confirms<T>(b: Buffer<T>, uniqueId: string, msgId: string) {
    msgId != "" && uniqueId != "" && uniqueId in b.local && msgId in b.verified
  }

  // What the buffer holds, oldest first: dumpAllChatData.
  function Dump<T>(b: Buffer<T>): seq<T>
    requires forall n :: n in b.order ==> n in b.cells
  {
    seq(|b.order|, i requires 0 <= i < |b.order| => b.cells[b.order[i]])
  }

  // The list: distinct nodes, each with a record.
  ghost predicate ListOk<T>(b: Buffer<T>) {
    && (forall n :: n in b.order <==> n in b.cells)
    && Distinct(b.order)
    && (forall n :: n in b.order ==> n < b.next)
  }

  // Every node has an entry, no entry dangles, no two entries share a node.
  ghost predicate EntriesOk<T>(b: Buffer<T>) {
    && (forall n :: n in b.order ==> exists k: Key :: Has(b, k) && Target(b, k) == n)
    && (forall k: Key :: Has(b, k) ==> Target(b, k) in b.order)
    && (forall k: Key, l: Key :: Has(b, k) && Has(b, l) && Target(b, k) == Target(b, l) ==> k == l)
  }

  /** Each node of the list is the target of exactly one index entry, and no entry dangles. */
  ghost predicate Inv<T>(b: Buffer<T>) {
    ListOk(b) && EntriesOk(b) && |b.order| == |b.local| + |b.verified|
  }

  lemma EmptyInv<T>(next: NodeId)
    ensures Inv(Empty<T>(next))
  {
  }

  lemma InsertEntries<T>(b: Buffer<T>, value: T, r: Record)
    requires Accepts(b, r)
    ensures var after := Insert(b, value, r).0;
            && Has(after, KeyOf(r).value) && Target(after, KeyOf(r).value) == b.next
            && (forall k: Key :: k != KeyOf(r).value ==> (Has(after, k) <==> Has(b, k)))
            && (forall k: Key :: k != KeyOf(r).value && Has(b, k) ==> Target(after, k) == Target(b, k))
            && |after.local| + |after.verified| == |b.local| + |b.verified| + 1
  {
  }

  lemma InsertKeepsList<T>(b: Buffer<T>, value: T, r: Record)
    requires ListOk(b)
    ensures ListOk(Insert(b, value, r).0)
  {
    assert b.next !in b.order;
    DistinctAppend(b.order, b.next);
  }

  lemma InsertKeepsEntries<T>(b: Buffer<T>, value: T, r: Record)
    requires EntriesOk(b) && b.next !in b.order && Accepts(b, r)
    ensures EntriesOk(Insert(b, value, r).0)
  {
    var after := Insert(b, value, r).0;
    InsertEntries(b, value, r);
    assert after.order == b.order + [b.next];
    forall n | n in after.order ensures exists k: Key :: Has(after, k) && Target(after, k) == n {
      if n != b.next {
        var k: Key :| Has(b, k) && Target(b, k) == n;
        assert Has(after, k) && Target(after, k) == n;
      }
    }
  }

  lemma InsertKeepsInv<T>(b: Buffer<T>, value: T, r: Record)
    requires Inv(b)
    ensures Inv(Insert(b, value, r).0)
  {
    InsertKeepsList(b, value, r);
    if Accepts(b, r) {
      InsertKeepsEntries(b, value, r);
      InsertEntries(b, value, r);
    }
  }

  /** A failed insertion leaves the buffer exactly as it was; a successful one appends the record, moves nothing,
      and the last fetched id changes only with a record the server confirmed. */
  lemma InsertOutcome<T>(b: Buffer<T>, value: T, r: Record)
    requires Inv(b)
    ensures var (after, ok) := Insert(b, value, r);
            && ok == (if r.onLocal then r.uniqueId != "" && r.uniqueId !in b.local
                      else Trimmed(r.msgId) != "" && Trimmed(r.msgId) !in b.verified)
            && Inv(after)
            && after.local == (if ok && r.onLocal then b.local[r.uniqueId := b.next] else b.local)
            && after.verified == (if ok && !r.onLocal then b.verified[Trimmed(r.msgId) := b.next] else b.verified)
            && (!ok ==> after == b)
            && (ok ==> Dump(after) == Dump(b) + [value])
            && after.lastFetched == if ok && !r.onLocal then r.msgId else b.lastFetched
  {
    InsertKeepsInv(b, value, r);
    if Accepts(b, r) {
      var after := Insert(b, value, r).0;
      assert forall i: nat :: i < |b.order| ==> b.order[i] in b.order;
      assert Dump(after) == Dump(b) + [value];
    }
  }

  datatype Op<T> = Put(value: T, record: Record) | Confirm(uniqueId: string, msgId: string) | Wipe

  // updateVerificationStatus leaves the buffer alone, whatever it writes to a record.
  function Apply<T>(b: Buffer<T>, op: Op<T>): Buffer<T> {
    match op
    case Put(value, r) => Insert(b, value, r).0
    case Confirm(_, _) => b
    case Wipe => Clear(b)
  }

  function Exec<T>(b: Buffer<T>, ops: seq<Op<T>>): Buffer<T> {
    if ops == [] then b else Apply(Exec(b, ops[..|ops| - 1]), ops[|ops| - 1])
  }

  // The records accepted since the buffer was last cleared.
  function Accepted<T>(b: Buffer<T>, ops: seq<Op<T>>): seq<T> {
    if ops == [] then []
    else
      var k := |ops| - 1;
      match ops[k]
      case Put(value, r) =>
        if Accepts(Exec(b, ops[..k]), r) then Accepted(b, ops[..k]) + [value] else Accepted(b, ops[..k])
      case Confirm(_, _) => Accepted(b, ops[..k])
      case Wipe => []
  }

  /** In every run: each list node has exactly one index entry, no entry dangles, the list is as long as the two
      indexes together, and it holds the records accepted since the last clear in the order they came. */
  lemma {:induction false} EveryRunKeepsIndexes<T>(ops: seq<Op<T>>)
    ensures var b := Exec(Empty<T>(0), ops);
            Inv(b) && |b.order| == |b.local| + |b.verified| && Dump(b) == Accepted(Empty<T>(0), ops)
  {
    if ops == [] {
      EmptyInv<T>(0);
    } else {
      var k := |ops| - 1;
      EveryRunKeepsIndexes(ops[..k]);
      var b := Exec(Empty<T>(0), ops[..k]);
      match ops[k] {
        case Put(value, r) => InsertOutcome(b, value, r);
        case Confirm(_, _) =>
        case Wipe => EmptyInv<T>(b.next);
      }
    }
  }

  // Indexes and records

  // The record an entry leads to is there and has the entry's key.
  ghost predicate Filed<T>(b: Buffer<T>, records: map<T, Record>, k: Key)
    requires Has(b, k)
  {
    && Target(b, k) in b.cells && b.cells[Target(b, k)] in records
    && KeyOf(records[b.cells[Target(b, k)]]) == Some(k)
  }

  /** Every entry is filed under the key its record has now. */
  ghost predicate KeysMatch<T>(b: Buffer<T>, records: map<T, Record>)
    requires Inv(b)
  {
    forall k: Key :: Has(b, k) ==> Filed(b, records, k)
  }

  // setMsgID
  function WithMsgId(r: Record, msgId: string): Record {
    r.(msgId := msgId, onLocal := false)
  }

  // The records after updateVerificationStatus.
  function Confirmed<T>(b: Buffer<T>, records: map<T, Record>, uniqueId: string, msgId: string): map<T, Record>
    requires Inv(b) && KeysMatch(b, records)
  {
    if Confirms(b, uniqueId, msgId) then
      assert Has(b, Local(uniqueId)) && Target(b, Local(uniqueId)) in b.order;
      var v := b.cells[b.local[uniqueId]];
      records[v := WithMsgId(records[v], msgId)]
    else records
  }

  /** Confirming a message spoils the local index exactly when the message is known locally and its server id is
      already indexed: the record is renamed but its entry stays, because the guard on the id is inverted. */
  lemma ConfirmKeepsKeysIff<T>(b: Buffer<T>, records: map<T, Record>, uniqueId: string, msgId: string)
    requires Inv(b) && KeysMatch(b, records)
    ensures KeysMatch(b, Confirmed(b, records, uniqueId, msgId)) <==> !Confirms(b, uniqueId, msgId)
  {
    if Confirms(b, uniqueId, msgId) {
      var k := Local(uniqueId);
      assert Has(b, k) && Target(b, k) in b.order;
      assert KeyOf(Confirmed(b, records, uniqueId, msgId)[b.cells[Target(b, k)]]) != Some(k);
    }
  }

  // The records as they are after an operation: a new record comes with an insertion, and confirming may write one.
  function Records<T>(b: Buffer<T>, records: map<T, Record>, op: Op<T>): map<T, Record> {
    match op
    case Put(value, r) => if value in records then records else records[value := r]
    case Confirm(uniqueId, msgId) =>
      if Confirms(b, uniqueId, msgId) && b.local[uniqueId] in b.cells && b.cells[b.local[uniqueId]] in records then
        var v := b.cells[b.local[uniqueId]];
        records[v := WithMsgId(records[v], msgId)]
      else records
    case Wipe => records
  }

  // What an insertion reads is the record as it is now.
  predicate ReadsNow<T>(records: map<T, Record>, op: Op<T>) {
    op.Put? && op.value in records ==> op.record == records[op.value]
  }

  function RecordsAfter<T>(ops: seq<Op<T>>): map<T, Record> {
    if ops == [] then map[]
    else
      var k := |ops| - 1;
      Records(Exec(Empty<T>(0), ops[..k]), RecordsAfter(ops[..k]), ops[k])
  }

  ghost predicate AlwaysReadsNow<T>(ops: seq<Op<T>>) {
    forall k: nat :: k < |ops| ==> ReadsNow(RecordsAfter(ops[..k]), ops[k])
  }

  // In state k of the run every entry is filed under its record's own key.
  ghost predicate FiledAt<T>(ops: seq<Op<T>>, k: nat)
    requires k <= |ops|
  {
    var b := Exec(Empty<T>(0), ops[..k]);
    Inv(b) && KeysMatch(b, RecordsAfter(ops[..k]))
  }

  // Operation k is a confirmation that writes to a record.
  ghost predicate WritesAt<T>(ops: seq<Op<T>>, k: nat)
    requires k < |ops|
  {
    ops[k].Confirm? && Confirms(Exec(Empty<T>(0), ops[..k]), ops[k].uniqueId, ops[k].msgId)
  }

  lemma NewKeyFiled<T>(b: Buffer<T>, records: map<T, Record>, value: T, r: Record)
    requires Accepts(b, r) && ReadsNow(records, Put(value, r))
    ensures var after := Insert(b, value, r).0;
            Has(after, KeyOf(r).value) && Filed(after, Records(b, records, Put(value, r)), KeyOf(r).value)
  {
  }

  lemma OldKeyFiled<T>(b: Buffer<T>, records: map<T, Record>, value: T, r: Record, k: Key)
    requires Accepts(b, r) && Has(b, k) && k != KeyOf(r).value && Filed(b, records, k) && b.next !in b.cells
    ensures var after := Insert(b, value, r).0;
            Has(after, k) && Filed(after, Records(b, records, Put(value, r)), k)
  {
  }

  lemma PutKeepsKey<T>(b: Buffer<T>, records: map<T, Record>, value: T, r: Record, k: Key)
    requires Inv(b) && KeysMatch(b, records) && ReadsNow(records, Put(value, r)) && Accepts(b, r)
    requires Has(Insert(b, value, r).0, k)
    ensures Filed(Insert(b, value, r).0, Records(b, records, Put(value, r)), k)
  {
    if k == KeyOf(r).value {
      NewKeyFiled(b, records, value, r);
    } else {
      InsertEntries(b, value, r);
      assert Has(b, k) && Target(b, k) in b.order;
      OldKeyFiled(b, records, value, r, k);
    }
  }

  lemma PutKeepsKeys<T>(b: Buffer<T>, records: map<T, Record>, value: T, r: Record)
    requires Inv(b) && KeysMatch(b, records) && ReadsNow(records, Put(value, r))
    ensures Inv(Insert(b, value, r).0) && KeysMatch(Insert(b, value, r).0, Records(b, records, Put(value, r)))
  {
    InsertKeepsInv(b, value, r);
    if Accepts(b, r) {
      forall k: Key | Has(Insert(b, value, r).0, k)
        ensures Filed(Insert(b, value, r).0, Records(b, records, Put(value, r)), k)
      {
        PutKeepsKey(b, records, value, r, k);
      }
    } else {
      RejectedKeepsKeys(b, records, value, r);
    }
  }

  lemma RejectedKeepsKeys<T>(b: Buffer<T>, records: map<T, Record>, value: T, r: Record)
    requires Inv(b) && KeysMatch(b, records)
    ensures KeysMatch(b, Records(b, records, Put(value, r)))
  {
  }

  // One operation keeps the records filed unless it is a confirmation that writes.
  lemma StepKeepsKeysIff<T>(b: Buffer<T>, records: map<T, Record>, op: Op<T>)
    requires Inv(b) && KeysMatch(b, records) && ReadsNow(records, op)
    ensures Inv(Apply(b, op))
    ensures KeysMatch(Apply(b, op), Records(b, records, op))
            <==> !(op.Confirm? && Confirms(b, op.uniqueId, op.msgId))
  {
    match op {
      case Put(value, r) => PutKeepsKeys(b, records, value, r);
      case Confirm(uniqueId, msgId) =>
        if Confirms(b, uniqueId, msgId) {
          assert Has(b, Local(uniqueId)) && Target(b, Local(uniqueId)) in b.order;
        }
        ConfirmKeepsKeysIff(b, records, uniqueId, msgId);
      case Wipe => EmptyInv<T>(b.next);
    }
  }

  // In the first n + 1 states of the run the records are filed under their own keys.
  ghost predicate FiledUpTo<T>(ops: seq<Op<T>>, n: nat)
    requires n <= |ops|
  {
    FiledAt(ops, n) && (n > 0 ==> FiledUpTo(ops, n - 1))
  }

  // None of the first n operations is a confirmation that writes to a record.
  ghost predicate WritesNothingBefore<T>(ops: seq<Op<T>>, n: nat)
    requires n <= |ops|
  {
    n > 0 ==> !WritesAt(ops, n - 1) && WritesNothingBefore(ops, n - 1)
  }

  // One operation further, the records are still filed unless it is a confirmation that writes.
  lemma FiledNext<T>(ops: seq<Op<T>>, n: nat)
    requires AlwaysReadsNow(ops) && n < |ops| && FiledAt(ops, n)
    ensures FiledAt(ops, n + 1) <==> !WritesAt(ops, n)
  {
    assert ops[..n + 1][..n] == ops[..n];
    StepKeepsKeysIff(Exec(Empty<T>(0), ops[..n]), RecordsAfter(ops[..n]), ops[n]);
  }

  /** Over runs: every entry is filed under its record's own key in the first n + 1 states, for any n up to the
      length of the run, exactly when none of the first n operations is a confirmation that writes to a record. */
  lemma {:induction false} RunKeepsKeysIff<T>(ops: seq<Op<T>>, n: nat)
    requires AlwaysReadsNow(ops) && n <= |ops|
    ensures FiledUpTo(ops, n) <==> WritesNothingBefore(ops, n)
  {
    if n == 0 {
      EmptyInv<T>(0);
      assert FiledAt(ops, 0);
    } else {
      RunKeepsKeysIff(ops, n - 1);
      if FiledUpTo(ops, n - 1) {
        FiledNext(ops, n - 1);
      }
    }
  }

  /** Not the code: the promotion with the guard the right way round, rejecting an id that is taken. */
  function Promoted<T>(b: Buffer<T>, uniqueId: string, msgId: string): (Buffer<T>, bool) {
    if msgId == "" || uniqueId == "" || uniqueId !in b.local || msgId in b.verified then (b, false)
    else (b.(verified := b.verified[msgId := b.local[uniqueId]], local := b.local - {uniqueId}), true)
  }

  lemma PromotedEntries<T>(b: Buffer<T>, uniqueId: string, msgId: string)
    requires Promoted(b, uniqueId, msgId).1
    ensures var after := Promoted(b, uniqueId, msgId).0;
            && Has(after, Verified(msgId)) && Target(after, Verified(msgId)) == b.local[uniqueId]
            && !Has(after, Local(uniqueId))
            && (forall k: Key :: k != Verified(msgId) && k != Local(uniqueId) ==> (Has(after, k) <==> Has(b, k)))
            && (forall k: Key :: k != Verified(msgId) && k != Local(uniqueId) && Has(b, k)
                  ==> Target(after, k) == Target(b, k))
            && |after.local| + |after.verified| == |b.local| + |b.verified|
  {
    assert b.local == (b.local - {uniqueId})[uniqueId := b.local[uniqueId]];
  }

  /** The corrected promotion would keep the indexes and the list as they have to be. */
  lemma PromotedKeepsInv<T>(b: Buffer<T>, uniqueId: string, msgId: string)
    requires Inv(b)
    ensures Inv(Promoted(b, uniqueId, msgId).0) && Dump(Promoted(b, uniqueId, msgId).0) == Dump(b)
  {
    var after := Promoted(b, uniqueId, msgId).0;
    if Promoted(b, uniqueId, msgId).1 {
      PromotedEntries(b, uniqueId, msgId);
      assert Has(b, Local(uniqueId)) && Target(b, Local(uniqueId)) in b.order;
      forall n | n in after.order ensures exists k: Key :: Has(after, k) && Target(after, k) == n {
        var k: Key :| Has(b, k) && Target(b, k) == n;
        var moved := if k == Local(uniqueId) then Verified(msgId) else k;
        assert Has(after, moved) && Target(after, moved) == n;
      }
    }
  }
}
