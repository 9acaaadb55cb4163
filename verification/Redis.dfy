/** The Redis commands the chat servers issue, as functions on the key space.

    Each key family is a map of its own: "lock:<name>" in `locks`, "uuid_<uuid>" in `servers`,
    "session_<uuid>" in `sessions`, and the fields of the hash "redis_server" in `counters`.
    A lock carries the moment its PX lease lapses; from then on the key does not exist. */
module Redis {
  import opened Wrappers

  // One acquire call; its number stands for the random identifier the call generates.
  type ClientId = nat

  datatype Lease = Lease(holder: ClientId, deadline: nat)

  datatype Store = Store(
    now: nat,
    locks: map<string, Lease>,
    servers: map<string, string>,
    sessions: map<string, string>,
    counters: map<string, nat>)

  datatype Reply = Integer(n: int) | Status(text: string) | Text(text: string) | Nil | Error

  const LEASE_MS: nat := 10
  const WAIT_MS: nat := 10

  const EMPTY_STORE := Store(0, map[], map[], map[], map[])

  // What RedisReply::isSuccessful makes of a reply: DEL of an absent key answers 0 and still succeeds.
  predicate IsSuccessful(reply: Reply) {
    match reply
    case Integer(n) => n >= 0
    case Status(text) => text == "OK" || text == "ok"
    case Text(text) => text != ""
    case Nil => false
    case Error => false
  }

  predicate Locked(s: Store, name: string) {
    name in s.locks && s.now < s.locks[name].deadline
  }

  // SET lock:<name> <id> NX PX <LEASE_MS>
  function SetNxPx(s: Store, name: string, id: ClientId): (Store, Reply) {
    if Locked(s, name) then (s, Nil)
    else (s.(locks := s.locks[name := Lease(id, s.now + LEASE_MS)]), Status("OK"))
  }

  // The release script: delete the lock only when it still carries this identifier.
  function CompareAndDelete(s: Store, name: string, id: ClientId): (Store, Reply) {
    if Locked(s, name) && s.locks[name].holder == id
    then (s.(locks := s.locks - {name}), Integer(1))
    else (s, Integer(0))
  }

  function Get(m: map<string, string>, key: string): Reply {
    if key in m then Text(m[key]) else Nil
  }

  // checkValue: an unsuccessful reply, the empty string included, reads as "no value".
  function CheckValue(reply: Reply): Option<string> {
    if IsSuccessful(reply) && reply.Text? then Some(reply.text) else None
  }

  function DelReply<V>(m: map<string, V>, key: string): Reply {
    Integer(if key in m then 1 else 0)
  }
}
