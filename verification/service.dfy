/** The messaging service of handler/handler.go: token authentication, the
    find-or-create-thread-then-store-message sequence, and the pass-throughs
    to the repository. */
module Service {
  import opened Wrappers
  import opened Entities
  import opened ThreadId
  import opened Repository

  /** The token accepted without consulting the authenticator. */
  const BypassToken := "a51f5e8cefa63a4a8ee4e2e34329661c"

  /** The user id the bypass token authenticates as. */
  const SystemUser := "system"

  /** `auth.Authenticator.DecodeToken`, reduced to the user id it yields. */
  type TokenDecoder = string -> Result<string>

  /** The collaborators of the service that the model does not define. */
  datatype Collaborators = Collaborators(decodeToken: TokenDecoder, hash: Hasher)

  /** The `(userID, valid, err)` triple of `AuthenticateToken`. */
  datatype AuthResult = AuthResult(userId: string, valid: bool, err: Option<string>)

  function AuthenticateToken(decodeToken: TokenDecoder, token: string): (r: AuthResult)
    ensures r.valid <==> r.err.None?
    ensures token == BypassToken ==> r == AuthResult(SystemUser, true, None)
    ensures token != BypassToken && decodeToken(token).Err? ==>
              r == AuthResult("", false, Some(decodeToken(token).error))
    ensures token != BypassToken && decodeToken(token).Ok? ==>
              r == AuthResult(decodeToken(token).value, true, None)
  {
    if token == BypassToken then AuthResult(SystemUser, true, None)
    else match decodeToken(token)
      case Err(e) => AuthResult("", false, Some(e))
      case Ok(userId) => AuthResult(userId, true, None)
  }

  /** The bypass token is accepted whatever the authenticator would say. */
  lemma BypassIgnoresAuthenticator(f: TokenDecoder, g: TokenDecoder)
    ensures AuthenticateToken(f, BypassToken) == AuthenticateToken(g, BypassToken)
  {
  }

  /** For any other token the result is decided by the authenticator alone. */
  lemma AuthenticatorDecides(f: TokenDecoder, g: TokenDecoder, token: string)
    requires token != BypassToken && f(token) == g(token)
    ensures AuthenticateToken(f, token) == AuthenticateToken(g, token)
  {
  }

  // ---------------------------------------------------------------------------
  // StoreMessage
  // ---------------------------------------------------------------------------

  /** One insert issued to the database, in issue order. */
  datatype Write = ThreadWrite(thread: Thread) | MessageWrite(message: Message)

  /** The store after a sequence of successful inserts. */
  function Apply(db: Db, writes: seq<Write>): (r: Db)
    ensures r.faults == db.faults
    ensures |r.threads| >= |db.threads| && r.threads[..|db.threads|] == db.threads
    ensures |r.messages| >= |db.messages| && r.messages[..|db.messages|] == db.messages
  {
    if |writes| == 0 then db
    else
      var last := writes[|writes| - 1];
      var before := Apply(db, writes[..|writes| - 1]);
      match last
      case ThreadWrite(t) => before.(threads := before.threads + [Doc(t, true)])
      case MessageWrite(m) => before.(messages := before.messages + [Doc(m, true)])
  }

  /** What `StoreMessage` leaves behind: the store, the inserts it issued, the
      message as its caller sees it afterwards (the thread id is written
      through the `*model.Message` argument), and the returned error. */
  datatype Stored = Stored(db: Db, writes: seq<Write>, message: Message, err: Option<string>)

  /** The thread `StoreMessage` creates for a first message. */
  function NewThread(hash: Hasher, m: Message, now: int): (t: Thread)
    ensures t.threadId == GenerateThreadIDHash(hash, m.senderId, m.receiverId)
    ensures t.userId1 == m.senderId && t.userId2 == m.receiverId
    ensures t.messages == [] && t.updatedAt == now
  {
    Thread(GenerateThreadIDHash(hash, m.senderId, m.receiverId), m.senderId, m.receiverId, [], now)
  }

  /** The last step of `StoreMessage`: insert the message stamped with the thread id. */
  function Persist(db: Db, before: seq<Write>, base: Db, m: Message): (r: Stored)
    requires db == Apply(base, before)
    ensures r.db == Apply(base, r.writes)
    ensures r.message == m
    ensures r.err.None? <==> InsertMessage !in db.faults
    ensures r.err.None? ==> r.writes == before + [MessageWrite(m)]
    ensures r.err.Some? ==> r.writes == before && r.db == db
  {
    match Repository.StoreMessage(db, m)
    case Err(e) => Stored(db, before, m, Some("could not store message: " + e))
    case Ok(db2) =>
      assert (before + [MessageWrite(m)])[..|before|] == before;
      Stored(db2, before + [MessageWrite(m)], m, None)
  }

  /** `StoreMessage`: find the thread of the pair or create it, then store the
      message with that thread id. `now` is the creation time of a new thread. */
  function StoreMessage(db: Db, hash: Hasher, now: int, m: Message): (r: Stored)
    ensures r.db == Apply(db, r.writes)
    ensures r.message == m.(threadId := r.message.threadId)
    // a lookup error other than NotFound: nothing is stored
    ensures FindThreadByUsers(db, hash, m.senderId, m.receiverId).LookupFailed? ==>
              r.err.Some? && r.writes == []
    // an existing thread is reused: no thread is stored
    ensures FindThreadByUsers(db, hash, m.senderId, m.receiverId).Found? ==>
              (forall w :: w in r.writes ==> w.MessageWrite?) &&
              r.message.threadId == FindThreadByUsers(db, hash, m.senderId, m.receiverId).thread.threadId
    // no thread yet: the new thread is the first insert; if it fails nothing else is stored
    ensures FindThreadByUsers(db, hash, m.senderId, m.receiverId).NotFound? ==>
              (InsertThread in db.faults ==> r.err.Some? && r.writes == []) &&
              (InsertThread !in db.faults ==> |r.writes| >= 1 && r.writes[0] == ThreadWrite(NewThread(hash, m, now)))
    // on success the message was the last insert, stamped with the pair's thread id
    ensures r.err.None? <==> |r.writes| >= 1 && r.writes[|r.writes| - 1] == MessageWrite(r.message)
    ensures r.err.None? ==> r.message.threadId == GenerateThreadIDHash(hash, m.senderId, m.receiverId)
    // once a thread is at hand, the store fails exactly when the message insert
    // does; the inserts issued are the new thread, if any, then the message
    ensures FindThreadByUsers(db, hash, m.senderId, m.receiverId).Found? ==>
              (r.err.None? <==> InsertMessage !in db.faults) &&
              r.writes == (if InsertMessage in db.faults then [] else [MessageWrite(r.message)])
    ensures FindThreadByUsers(db, hash, m.senderId, m.receiverId).NotFound? && InsertThread !in db.faults ==>
              (r.err.None? <==> InsertMessage !in db.faults) &&
              r.writes == [ThreadWrite(NewThread(hash, m, now))] +
                          (if InsertMessage in db.faults then [] else [MessageWrite(r.message)])
  {
    match FindThreadByUsers(db, hash, m.senderId, m.receiverId)
    case LookupFailed(e) => Stored(db, [], m, Some("could not find thread: " + e))
    case Found(t) => Persist(db, [], db, m.(threadId := t.threadId))
    case NotFound =>
      var t := NewThread(hash, m, now);
      match Repository.StoreThread(db, t)
      case Err(e) => Stored(db, [], m, Some("could not store thread: " + e))
      case Ok(db1) => Persist(db1, [ThreadWrite(t)], db, m.(threadId := t.threadId))
  }

  /** `GetInboxByUserID` of the service: the repository's inbox, error wrapped. */
  function GetInboxByUserID(db: Db, userId: string, messageLimit: int): (r: Result<Inbox>)
    ensures r.Err? <==> FindThreads(userId) in db.faults
    ensures r.Ok? ==> r.value == Repository.GetInboxByUserID(db, userId, messageLimit).value
  {
    match Repository.GetInboxByUserID(db, userId, messageLimit)
    case Err(e) => Err("could not fetch inbox: " + e)
    case Ok(inbox) => Ok(inbox)
  }

  /** `GetAllMessagesByThreadID` of the service: the repository's page, error wrapped. */
  function GetAllMessagesByThreadID(db: Db, threadId: string, limit: int, skip: int): (r: Result<seq<Message>>)
    ensures r.Err? <==> FindMessages(threadId) in db.faults || skip < 0
    ensures r.Ok? ==> r.value == Repository.GetAllMessagesByThreadID(db, threadId, limit, skip).value
  {
    match Repository.GetAllMessagesByThreadID(db, threadId, limit, skip)
    case Err(e) => Err("could not fetch messages: " + e)
    case Ok(ms) => Ok(ms)
  }

  // ---------------------------------------------------------------------------
  // Properties of StoreMessage over the store it leaves behind
  // ---------------------------------------------------------------------------

  /** The store `StoreMessage` leaves behind when the pair's thread exists. */
  lemma StoredOnFound(db: Db, hash: Hasher, now: int, m: Message, t: Thread)
    requires FindThreadByUsers(db, hash, m.senderId, m.receiverId) == Found(t)
    ensures var r := StoreMessage(db, hash, now, m);
            && r.message == m.(threadId := t.threadId)
            && r.db == (if InsertMessage in db.faults then db
                        else db.(messages := db.messages + [Doc(r.message, true)]))
  {
    assert [MessageWrite(m.(threadId := t.threadId))][..0] == [];
  }

  /** The store `StoreMessage` leaves behind when it creates the pair's thread. */
  lemma StoredOnNew(db: Db, hash: Hasher, now: int, m: Message)
    requires FindThreadByUsers(db, hash, m.senderId, m.receiverId).NotFound?
    requires InsertThread !in db.faults
    ensures var r := StoreMessage(db, hash, now, m);
            var t := NewThread(hash, m, now);
            var db1 := db.(threads := db.threads + [Doc(t, true)]);
            && r.message == m.(threadId := t.threadId)
            && r.db == (if InsertMessage in db.faults then db1
                        else db1.(messages := db1.messages + [Doc(r.message, true)]))
  {
    var t := NewThread(hash, m, now);
    var w := [ThreadWrite(t), MessageWrite(m.(threadId := t.threadId))];
    assert w[..1] == [ThreadWrite(t)];
    assert w[..1][..0] == [];
  }

  /** A second message between the same two users, in either direction,
      finds the thread the first one used: no new thread is stored and the
      message gets the same thread id. */
  lemma SecondMessageReusesThread(db: Db, hash: Hasher, now1: int, now2: int, m1: Message, m2: Message)
    requires SamePair(m1.senderId, m1.receiverId, m2.senderId, m2.receiverId)
    requires StoreMessage(db, hash, now1, m1).err.None?
    requires FetchThread(GenerateThreadIDHash(hash, m1.senderId, m1.receiverId)) !in db.faults
    ensures var r1 := StoreMessage(db, hash, now1, m1);
            var r2 := StoreMessage(r1.db, hash, now2, m2);
            && FindThreadByUsers(r1.db, hash, m2.senderId, m2.receiverId).Found?
            && (forall w :: w in r2.writes ==> w.MessageWrite?)
            && (r2.err.None? <==> InsertMessage !in db.faults)
            && (r2.err.None? ==> r2.message.threadId == r1.message.threadId)
  {
    var r1 := StoreMessage(db, hash, now1, m1);
    ThreadAfterFirst(db, hash, now1, m1, m2);
    SecondMessageAfter(db, r1.db, hash, now2, m2, r1.message.threadId);
  }

  /** After a first message is stored, the thread it used is what a lookup
      for the same pair, in either direction, finds. */
  lemma ThreadAfterFirst(db: Db, hash: Hasher, now: int, m1: Message, m2: Message)
    requires SamePair(m1.senderId, m1.receiverId, m2.senderId, m2.receiverId)
    requires StoreMessage(db, hash, now, m1).err.None?
    requires FetchThread(GenerateThreadIDHash(hash, m1.senderId, m1.receiverId)) !in db.faults
    ensures var r1 := StoreMessage(db, hash, now, m1);
            && r1.db.faults == db.faults
            && FindThreadByUsers(r1.db, hash, m2.senderId, m2.receiverId).Found?
            && FindThreadByUsers(r1.db, hash, m2.senderId, m2.receiverId).thread.threadId == r1.message.threadId
  {
    var r1 := StoreMessage(db, hash, now, m1);
    match FindThreadByUsers(db, hash, m1.senderId, m1.receiverId)
    case Found(t) =>
      StoredOnFound(db, hash, now, m1, t);
      FoundAfterFound(db, r1.db, hash, m1, m2, t);
    case NotFound =>
      StoredOnNew(db, hash, now, m1);
      FoundAfterNew(db, r1.db, hash, m1, m2, NewThread(hash, m1, now));
  }

  /** A store whose threads and faults are those of `db` finds the same thread
      for the same pair, in either direction. */
  lemma FoundAfterFound(db: Db, db1: Db, hash: Hasher, m1: Message, m2: Message, t: Thread)
    requires SamePair(m1.senderId, m1.receiverId, m2.senderId, m2.receiverId)
    requires FindThreadByUsers(db, hash, m1.senderId, m1.receiverId) == Found(t)
    requires db1.threads == db.threads && db1.faults == db.faults
    ensures FindThreadByUsers(db1, hash, m2.senderId, m2.receiverId) == Found(t)
  {
    SamePairSameId(hash, m1.senderId, m1.receiverId, m2.senderId, m2.receiverId);
  }

  /** Once the missing thread of a pair is appended, a lookup for the same
      pair, in either direction, finds it. */
  lemma FoundAfterNew(db: Db, db1: Db, hash: Hasher, m1: Message, m2: Message, t: Thread)
    requires SamePair(m1.senderId, m1.receiverId, m2.senderId, m2.receiverId)
    requires FindThreadByUsers(db, hash, m1.senderId, m1.receiverId).NotFound?
    requires t.threadId == GenerateThreadIDHash(hash, m1.senderId, m1.receiverId)
    requires db1.threads == db.threads + [Doc(t, true)] && db1.faults == db.faults
    ensures FindThreadByUsers(db1, hash, m2.senderId, m2.receiverId) == Found(t)
  {
    SamePairSameId(hash, m1.senderId, m1.receiverId, m2.senderId, m2.receiverId);
    FirstWithIdAppend(db.threads, Doc(t, true), t.threadId);
  }

  /** Once the pair's thread is found in `db1`, the second message reuses it. */
  lemma SecondMessageAfter(db: Db, db1: Db, hash: Hasher, now: int, m: Message, id: string)
    requires db1.faults == db.faults
    requires FindThreadByUsers(db1, hash, m.senderId, m.receiverId).Found?
    requires FindThreadByUsers(db1, hash, m.senderId, m.receiverId).thread.threadId == id
    ensures var r2 := StoreMessage(db1, hash, now, m);
            && (forall w :: w in r2.writes ==> w.MessageWrite?)
            && (r2.err.None? <==> InsertMessage !in db.faults)
            && (r2.err.None? ==> r2.message.threadId == id)
  {
  }

  /** Every thread document's id is derived from its two users. */
  predicate ThreadIdsDerived(db: Db, hash: Hasher) {
    forall i :: 0 <= i < |db.threads| ==>
      db.threads[i].value.threadId == GenerateThreadIDHash(hash, db.threads[i].value.userId1, db.threads[i].value.userId2)
  }

  /** The thread document `i` is a thread of message `m`: same id, same pair of users. */
  predicate ThreadOf(db: Db, i: int, m: Message) {
    && 0 <= i < |db.threads|
    && db.threads[i].value.threadId == m.threadId
    && SamePair(db.threads[i].value.userId1, db.threads[i].value.userId2, m.senderId, m.receiverId)
  }

  /** Some stored thread is a thread of `m`. */
  ghost predicate Resolves(db: Db, m: Message) {
    exists i :: ThreadOf(db, i, m)
  }

  /** Every stored message's thread id resolves to a thread of its sender and receiver. */
  ghost predicate MessagesResolve(db: Db) {
    forall j :: 0 <= j < |db.messages| ==> Resolves(db, db.messages[j].value)
  }

  ghost predicate Consistent(db: Db, hash: Hasher) {
    ThreadIdsDerived(db, hash) && MessagesResolve(db)
  }

  /** No stored thread of another pair has the id the hash gives to `a` and `b`. */
  predicate NoCollision(db: Db, hash: Hasher, a: string, b: string) {
    forall i :: 0 <= i < |db.threads| && db.threads[i].value.threadId == GenerateThreadIDHash(hash, a, b) ==>
      SamePair(db.threads[i].value.userId1, db.threads[i].value.userId2, a, b)
  }

  /** Storing a thread whose id is derived from its users keeps the store consistent. */
  lemma AddThreadConsistent(db: Db, hash: Hasher, t: Thread)
    requires Consistent(db, hash)
    requires t.threadId == GenerateThreadIDHash(hash, t.userId1, t.userId2)
    ensures Consistent(db.(threads := db.threads + [Doc(t, true)]), hash)
  {
    var db1 := db.(threads := db.threads + [Doc(t, true)]);
    forall j | 0 <= j < |db1.messages|
      ensures Resolves(db1, db1.messages[j].value)
    {
      assert Resolves(db, db.messages[j].value);
      var i :| ThreadOf(db, i, db.messages[j].value);
      assert ThreadOf(db1, i, db1.messages[j].value);
    }
  }

  /** Storing a message that has a thread keeps the store consistent. */
  lemma AddMessageConsistent(db: Db, hash: Hasher, msg: Message, k: int)
    requires Consistent(db, hash)
    requires ThreadOf(db, k, msg)
    ensures Consistent(db.(messages := db.messages + [Doc(msg, true)]), hash)
  {
    var db1 := db.(messages := db.messages + [Doc(msg, true)]);
    forall j | 0 <= j < |db1.messages|
      ensures Resolves(db1, db1.messages[j].value)
    {
      if j < |db.messages| {
        assert Resolves(db, db.messages[j].value);
        var i :| ThreadOf(db, i, db.messages[j].value);
        assert ThreadOf(db1, i, db1.messages[j].value);
      } else {
        assert ThreadOf(db1, k, db1.messages[j].value);
      }
    }
  }

  /** Unless the hash collides with another stored pair, `StoreMessage` keeps
      every message attached to a thread of exactly its two users. */
  lemma StorePreservesConsistency(db: Db, hash: Hasher, now: int, m: Message)
    requires Consistent(db, hash)
    requires NoCollision(db, hash, m.senderId, m.receiverId)
    ensures Consistent(StoreMessage(db, hash, now, m).db, hash)
  {
    match FindThreadByUsers(db, hash, m.senderId, m.receiverId)
    case LookupFailed(_) =>
    case Found(t) =>
      StoredOnFound(db, hash, now, m, t);
      if InsertMessage !in db.faults {
        var k :| 0 <= k < |db.threads| && db.threads[k] == Doc(t, true);
        assert ThreadOf(db, k, m.(threadId := t.threadId));
        AddMessageConsistent(db, hash, m.(threadId := t.threadId), k);
      }
    case NotFound =>
      if InsertThread !in db.faults {
        var t := NewThread(hash, m, now);
        var db1 := db.(threads := db.threads + [Doc(t, true)]);
        StoredOnNew(db, hash, now, m);
        AddThreadConsistent(db, hash, t);
        if InsertMessage !in db.faults {
          assert ThreadOf(db1, |db.threads|, m.(threadId := t.threadId));
          AddMessageConsistent(db1, hash, m.(threadId := t.threadId), |db.threads|);
        }
      }
  }
}
