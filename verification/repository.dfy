/** repository/mongo.go over an in-memory store. The two collections are
    sequences of stored documents in insertion order; a document that no
    longer decodes into its Go struct is kept with `decodes == false`.
    Failures of the database itself (network, server) are not derived from
    the store: a fault map names the operations that fail and the error
    they return. */
module Repository {
  import opened Wrappers
  import opened Entities
  import opened ThreadId

  datatype Doc<T> = Doc(value: T, decodes: bool)

  /** The database operations the repository issues. */
  datatype Op =
    | FindThreads(userId: string)
    | FindMessages(threadId: string)
    | FetchThread(threadId: string)
    | InsertThread
    | InsertMessage

  datatype Db = Db(threads: seq<Doc<Thread>>, messages: seq<Doc<Message>>, faults: map<Op, string>)

  /** The error text for a document that does not decode and for a
      negative skip rejected by the server (their wording is not modelled). */
  const DecodeFailure := "document could not be decoded"
  const NegativeSkip := "skip value must be non-negative"

  // ---------------------------------------------------------------------------
  // Declarative pieces of a query: filter, decode, sort, skip and limit
  // ---------------------------------------------------------------------------

  /** The values of the documents that decode, in order; the others are dropped. */
  function Decoded<T>(docs: seq<Doc<T>>): (r: seq<T>)
    ensures |r| <= |docs|
  {
    if |docs| == 0 then []
    else (if docs[0].decodes then [docs[0].value] else []) + Decoded(docs[1..])
  }

  /** Each value is kept as often as it is stored as a decodable document. */
  lemma {:induction false} DecodedCount<T(!new)>(docs: seq<Doc<T>>)
    ensures forall x :: multiset(Decoded(docs))[x] == multiset(docs)[Doc(x, true)]
    decreases |docs|
  {
    if |docs| > 0 {
      DecodedCount(docs[1..]);
      assert docs == [docs[0]] + docs[1..];
      var head := if docs[0].decodes then [docs[0].value] else [];
      assert Decoded(docs) == head + Decoded(docs[1..]);
      assert multiset(Decoded(docs)) == multiset(head) + multiset(Decoded(docs[1..]));
      assert multiset(docs) == multiset{docs[0]} + multiset(docs[1..]);
    }
  }

  /** A property of every stored value holds of every decoded value. */
  lemma {:induction false} DecodedKeeps<T>(docs: seq<Doc<T>>, p: T -> bool)
    requires forall i :: 0 <= i < |docs| ==> p(docs[i].value)
    ensures forall i :: 0 <= i < |Decoded(docs)| ==> p(Decoded(docs)[i])
    decreases |docs|
  {
    if |docs| > 0 {
      DecodedKeeps(docs[1..], p);
      var head := if docs[0].decodes then [docs[0].value] else [];
      var r := Decoded(docs);
      assert r == head + Decoded(docs[1..]);
      forall i | 0 <= i < |r|
        ensures p(r[i])
      {
        if i >= |head| {
          assert r[i] == Decoded(docs[1..])[i - |head|];
        }
      }
    }
  }

  /** Every document decodes into its Go struct. */
  predicate AllDecode<T>(docs: seq<Doc<T>>) {
    forall i :: 0 <= i < |docs| ==> docs[i].decodes
  }

  /** When every document decodes, decoding drops nothing and keeps the order. */
  lemma {:induction false} DecodedAll<T>(docs: seq<Doc<T>>)
    requires AllDecode(docs)
    ensures |Decoded(docs)| == |docs|
    ensures forall i :: 0 <= i < |docs| ==> Decoded(docs)[i] == docs[i].value
    decreases |docs|
  {
    if |docs| > 0 {
      DecodedAll(docs[1..]);
      var r := Decoded(docs);
      assert r == [docs[0].value] + Decoded(docs[1..]);
      forall i | 0 < i < |docs|
        ensures r[i] == docs[i].value
      {
        assert r[i] == Decoded(docs[1..])[i - 1];
        assert docs[1..][i - 1] == docs[i];
      }
    }
  }

  lemma {:induction false} DecodedAppend<T>(a: seq<Doc<T>>, b: seq<Doc<T>>)
    ensures Decoded(a + b) == Decoded(a) + Decoded(b)
    decreases |a|
  {
    if |a| > 0 {
      assert (a + b)[0] == a[0];
      assert (a + b)[1..] == a[1..] + b;
      DecodedAppend(a[1..], b);
    } else {
      assert a + b == b;
    }
  }

  predicate SortedDesc<T>(s: seq<T>, key: T -> int) {
    forall i, j :: 0 <= i < j < |s| ==> key(s[i]) >= key(s[j])
  }

  predicate DocsSortedDesc<T>(s: seq<Doc<T>>, key: T -> int) {
    forall i, j :: 0 <= i < j < |s| ==> key(s[i].value) >= key(s[j].value)
  }

  /** Dropping documents keeps the order of the rest. */
  lemma {:induction false} DecodedSorted<T>(docs: seq<Doc<T>>, key: T -> int)
    requires DocsSortedDesc(docs, key)
    ensures SortedDesc(Decoded(docs), key)
    decreases |docs|
  {
    if |docs| > 0 {
      var top := key(docs[0].value);
      var rest := Decoded(docs[1..]);
      DecodedSorted(docs[1..], key);
      DecodedKeeps(docs[1..], x => key(x) <= top);
      var head := if docs[0].decodes then [docs[0].value] else [];
      var r := Decoded(docs);
      assert r == head + rest;
      forall i, j | 0 <= i < j < |r|
        ensures key(r[i]) >= key(r[j])
      {
        if i >= |head| {
          assert r[i] == rest[i - |head|] && r[j] == rest[j - |head|];
        } else {
          assert r[j] == rest[j - 1];
        }
      }
    }
  }

  /** Inserts `x` before the first document whose key is not greater. */
  function InsertDesc<T>(x: Doc<T>, s: seq<Doc<T>>, key: T -> int): (r: seq<Doc<T>>)
    requires DocsSortedDesc(s, key)
    ensures |r| == |s| + 1
    ensures r[0] == x || (|s| > 0 && r[0] == s[0])
    ensures DocsSortedDesc(r, key)
    ensures multiset(r) == multiset(s) + multiset{x}
  {
    if |s| == 0 || key(s[0].value) <= key(x.value) then [x] + s
    else
      var tail := InsertDesc(x, s[1..], key);
      assert s == [s[0]] + s[1..];
      [s[0]] + tail
  }

  /** Orders documents by descending key; documents with equal keys keep
      their stored order. */
  function SortDesc<T>(s: seq<Doc<T>>, key: T -> int): (r: seq<Doc<T>>)
    ensures DocsSortedDesc(r, key)
    ensures multiset(r) == multiset(s)
  {
    if |s| == 0 then []
    else
      assert s == [s[0]] + s[1..];
      InsertDesc(s[0], SortDesc(s[1..], key), key)
  }

  /** MongoDB's `limit`: 0 means no limit, a negative limit returns at most
      its absolute value in a single batch. */
  function LimitBound(limit: int): (b: Option<nat>)
    ensures b.None? <==> limit == 0
    ensures b.Some? ==> b.value == if limit < 0 then -limit else limit
  {
    if limit == 0 then None else if limit < 0 then Some(-limit) else Some(limit)
  }

  /** Skip `skip` documents, then keep at most `bound` of the rest. */
  function Page<T>(s: seq<T>, skip: nat, bound: Option<nat>): (r: seq<T>)
    ensures skip <= |s| ==> skip + |r| <= |s| && r == s[skip..skip + |r|]
    ensures skip >= |s| ==> r == []
    ensures bound.Some? ==> |r| == if skip + bound.value <= |s| then bound.value else if skip <= |s| then |s| - skip else 0
    ensures bound.None? ==> |r| == if skip <= |s| then |s| - skip else 0
  {
    var rest := if skip <= |s| then s[skip..] else [];
    match bound
    case None => rest
    case Some(n) => if n <= |rest| then rest[..n] else rest
  }

  /** Consecutive pages concatenate to the page that spans both. */
  lemma PagesConcatenate<T>(s: seq<T>, skip: nat, n: nat, m: nat)
    ensures Page(s, skip, Some(n)) + Page(s, skip + n, Some(m)) == Page(s, skip, Some(n + m))
  {
    var whole := Page(s, skip, Some(n + m));
    if skip + n >= |s| {
      assert Page(s, skip + n, Some(m)) == [];
      assert Page(s, skip, Some(n)) == whole;
    } else {
      var e := if skip + n + m <= |s| then skip + n + m else |s|;
      assert Page(s, skip, Some(n)) == s[skip..skip + n];
      assert Page(s, skip + n, Some(m)) == s[skip + n..e];
      assert whole == s[skip..e];
      assert s[skip..skip + n] + s[skip + n..e] == s[skip..e];
    }
  }

  // ---------------------------------------------------------------------------
  // The thread and message queries
  // ---------------------------------------------------------------------------

  function UpdatedAt(t: Thread): int { t.updatedAt }

  function CreatedAt(m: Message): int { m.createdAt }

  predicate Involves(t: Thread, userId: string) {
    t.userId1 == userId || t.userId2 == userId
  }

  /** The filter `{$or: [{userId1: u}, {userId2: u}]}`. */
  function ThreadsOf(docs: seq<Doc<Thread>>, userId: string): (r: seq<Doc<Thread>>)
    ensures forall d :: multiset(r)[d] == if Involves(d.value, userId) then multiset(docs)[d] else 0
  {
    if |docs| == 0 then []
    else
      assert docs == [docs[0]] + docs[1..];
      (if Involves(docs[0].value, userId) then [docs[0]] else []) + ThreadsOf(docs[1..], userId)
  }

  /** The filter `{threadId: t}`. */
  function MessagesOf(docs: seq<Doc<Message>>, threadId: string): (r: seq<Doc<Message>>)
    ensures forall d :: multiset(r)[d] == if d.value.threadId == threadId then multiset(docs)[d] else 0
  {
    if |docs| == 0 then []
    else
      assert docs == [docs[0]] + docs[1..];
      (if docs[0].value.threadId == threadId then [docs[0]] else []) + MessagesOf(docs[1..], threadId)
  }

  /** The documents of a user's threads, most recently updated first. */
  function UserThreads(db: Db, userId: string): (r: seq<Doc<Thread>>)
    ensures DocsSortedDesc(r, UpdatedAt)
    ensures forall d :: multiset(r)[d] == if Involves(d.value, userId) then multiset(db.threads)[d] else 0
  {
    SortDesc(ThreadsOf(db.threads, userId), UpdatedAt)
  }

  /** `GetAllThreadsByUserID`: the decodable threads in which the user takes
      part, most recently updated first. */
  function GetAllThreadsByUserID(db: Db, userId: string): (r: Result<seq<Thread>>)
    ensures r.Err? <==> FindThreads(userId) in db.faults
    ensures r.Ok? ==> SortedDesc(r.value, UpdatedAt)
    ensures r.Ok? ==> forall t :: multiset(r.value)[t] ==
                        if Involves(t, userId) then multiset(db.threads)[Doc(t, true)] else 0
  {
    if FindThreads(userId) in db.faults then Err(db.faults[FindThreads(userId)])
    else
      DecodedSorted(UserThreads(db, userId), UpdatedAt);
      DecodedCount(UserThreads(db, userId));
      Ok(Decoded(UserThreads(db, userId)))
  }

  /** Every thread the query returns involves the user. */
  lemma ThreadsInvolveUser(db: Db, userId: string)
    requires FindThreads(userId) !in db.faults
    ensures forall t :: t in GetAllThreadsByUserID(db, userId).value ==> Involves(t, userId)
  {
    var r := GetAllThreadsByUserID(db, userId).value;
    forall t | t in r
      ensures Involves(t, userId)
    {
      assert multiset(r)[t] > 0;
    }
  }

  /** The documents of one thread, newest first, before skip and limit. */
  function ThreadHistory(db: Db, threadId: string): (r: seq<Doc<Message>>)
    ensures DocsSortedDesc(r, CreatedAt)
    ensures forall d :: multiset(r)[d] == if d.value.threadId == threadId then multiset(db.messages)[d] else 0
  {
    SortDesc(MessagesOf(db.messages, threadId), CreatedAt)
  }

  /** `GetAllMessagesByThreadID`: sort by `createdAt` descending, skip, limit,
      then drop the documents that do not decode. */
  function GetAllMessagesByThreadID(db: Db, threadId: string, limit: int, skip: int): (r: Result<seq<Message>>)
    ensures r.Err? <==> FindMessages(threadId) in db.faults || skip < 0
    ensures r.Ok? ==> forall i :: 0 <= i < |r.value| ==> r.value[i].threadId == threadId
    ensures r.Ok? ==> SortedDesc(r.value, CreatedAt)
    ensures r.Ok? && limit != 0 ==> |r.value| <= if limit < 0 then -limit else limit
    ensures r.Ok? ==> multiset(r.value) <= multiset(Decoded(ThreadHistory(db, threadId)))
    ensures r.Ok? && skip == 0 && limit == 0 ==> multiset(r.value) == multiset(Decoded(ThreadHistory(db, threadId)))
    // when every stored message decodes: exactly the newest messages after
    // the first `skip`, as many as the limit allows
    ensures r.Ok? && AllDecode(ThreadHistory(db, threadId)) ==>
              var h := ThreadHistory(db, threadId);
              var avail := if skip <= |h| then |h| - skip else 0;
              && |r.value| == (if limit != 0 && (if limit < 0 then -limit else limit) < avail
                               then (if limit < 0 then -limit else limit) else avail)
              && forall i :: 0 <= i < |r.value| ==> r.value[i] == h[skip + i].value
  {
    if FindMessages(threadId) in db.faults then Err(db.faults[FindMessages(threadId)])
    else if skip < 0 then Err(NegativeSkip)
    else
      HistoryPage(db, threadId, skip, LimitBound(limit));
      FullHistoryPage(db, threadId, skip, LimitBound(limit));
      Ok(Decoded(Page(ThreadHistory(db, threadId), skip, LimitBound(limit))))
  }

  /** When every message of the thread decodes, a page of its history is the
      slice of the newest messages after the first `skip`. */
  lemma FullHistoryPage(db: Db, threadId: string, skip: nat, bound: Option<nat>)
    ensures var h := ThreadHistory(db, threadId);
            var r := Decoded(Page(h, skip, bound));
            AllDecode(h) ==>
              && |r| == |Page(h, skip, bound)|
              && forall i :: 0 <= i < |r| ==> r[i] == h[skip + i].value
  {
    var h := ThreadHistory(db, threadId);
    var page := Page(h, skip, bound);
    if AllDecode(h) {
      assert AllDecode(page) by {
        forall i | 0 <= i < |page|
          ensures page[i].decodes
        {
          assert page[i] == h[skip + i];
        }
      }
      DecodedAll(page);
      forall i | 0 <= i < |page|
        ensures Decoded(page)[i] == h[skip + i].value
      {
        assert page[i] == h[skip + i];
      }
    }
  }

  /** What one page of a thread's history holds: messages of that thread,
      newest first, none of them beyond the thread's decodable history. */
  lemma HistoryPage(db: Db, threadId: string, skip: nat, bound: Option<nat>)
    ensures var r := Decoded(Page(ThreadHistory(db, threadId), skip, bound));
            && (forall i :: 0 <= i < |r| ==> r[i].threadId == threadId)
            && SortedDesc(r, CreatedAt)
            && multiset(r) <= multiset(Decoded(ThreadHistory(db, threadId)))
  {
    var h := ThreadHistory(db, threadId);
    var page := Page(h, skip, bound);
    PageSorted(h, skip, bound, CreatedAt);
    DecodedSorted(page, CreatedAt);
    DecodedSubset(h, skip, bound);
    forall i | 0 <= i < |page|
      ensures page[i].value.threadId == threadId
    {
      assert page[i] == h[skip + i];
      assert multiset(h)[h[skip + i]] > 0;
    }
    DecodedKeeps(page, (m: Message) => m.threadId == threadId);
  }

  /** A page of a sorted sequence is sorted. */
  lemma PageSorted<T>(s: seq<Doc<T>>, skip: nat, bound: Option<nat>, key: T -> int)
    requires DocsSortedDesc(s, key)
    ensures DocsSortedDesc(Page(s, skip, bound), key)
  {
    var p := Page(s, skip, bound);
    if skip <= |s| {
      assert forall i :: 0 <= i < |p| ==> p[i] == s[skip + i];
    }
  }

  /** The decodable values of a page are among those of the whole sequence. */
  lemma DecodedSubset<T>(s: seq<Doc<T>>, skip: nat, bound: Option<nat>)
    ensures multiset(Decoded(Page(s, skip, bound))) <= multiset(Decoded(s))
  {
    var p := Page(s, skip, bound);
    if skip <= |s| {
      var k := skip + |p|;
      assert s == s[..skip] + p + s[k..];
      DecodedAppend(s[..skip] + p, s[k..]);
      DecodedAppend(s[..skip], p);
    }
  }

  /** Paging through a thread with consecutive skips loses and repeats nothing. */
  lemma MessagePagesConcatenate(db: Db, threadId: string, skip: nat, n: nat, m: nat)
    requires FindMessages(threadId) !in db.faults
    requires n > 0 && m > 0
    ensures GetAllMessagesByThreadID(db, threadId, n, skip).value
              + GetAllMessagesByThreadID(db, threadId, m, skip + n).value
            == GetAllMessagesByThreadID(db, threadId, n + m, skip).value
  {
    var h := ThreadHistory(db, threadId);
    PagesConcatenate(h, skip, n, m);
    DecodedAppend(Page(h, skip, Some(n)), Page(h, skip + n, Some(m)));
  }

  // ---------------------------------------------------------------------------
  // Lookup and writes
  // ---------------------------------------------------------------------------

  /** The outcome of `FindThreadByUsers`; `NotFound` is `errorcodes.ErrNotFound`. */
  datatype Lookup = Found(thread: Thread) | NotFound | LookupFailed(error: string)

  /** The first stored thread document with the given id (`FindOne`, natural order). */
  function FirstWithId(docs: seq<Doc<Thread>>, threadId: string): (r: Option<nat>)
    ensures r.None? <==> forall i :: 0 <= i < |docs| ==> docs[i].value.threadId != threadId
    ensures r.Some? ==> r.value < |docs| && docs[r.value].value.threadId == threadId
    ensures r.Some? ==> forall i :: 0 <= i < r.value ==> docs[i].value.threadId != threadId
  {
    if |docs| == 0 then None
    else if docs[0].value.threadId == threadId then Some(0)
    else match FirstWithId(docs[1..], threadId)
      case None => None
      case Some(i) => Some(i + 1)
  }

  /** Appending a document does not change an earlier first match. */
  lemma {:induction false} FirstWithIdAppend(docs: seq<Doc<Thread>>, d: Doc<Thread>, threadId: string)
    ensures FirstWithId(docs + [d], threadId) ==
              if FirstWithId(docs, threadId).Some? then FirstWithId(docs, threadId)
              else if d.value.threadId == threadId then Some(|docs|)
              else None
  {
    if |docs| > 0 {
      assert (docs + [d])[1..] == docs[1..] + [d];
      FirstWithIdAppend(docs[1..], d, threadId);
    }
  }

  /** `FindThreadByUsers`: fetch by the derived id; "no documents" becomes `NotFound`. */
  function FindThreadByUsers(db: Db, hash: Hasher, u1: string, u2: string): (r: Lookup)
    ensures var id := GenerateThreadIDHash(hash, u1, u2);
            r.NotFound? <==> FetchThread(id) !in db.faults && forall i :: 0 <= i < |db.threads| ==> db.threads[i].value.threadId != id
    ensures r.Found? ==> r.thread.threadId == GenerateThreadIDHash(hash, u1, u2) && Doc(r.thread, true) in db.threads
    // a failed fetch is the lookup's error
    ensures var id := GenerateThreadIDHash(hash, u1, u2);
            FetchThread(id) in db.faults ==> r == LookupFailed(db.faults[FetchThread(id)])
    // otherwise the first stored thread with the id decides: found if it
    // decodes, a decoding error if not
    ensures var id := GenerateThreadIDHash(hash, u1, u2);
            FetchThread(id) !in db.faults && FirstWithId(db.threads, id).Some? ==>
              var doc := db.threads[FirstWithId(db.threads, id).value];
              (doc.decodes ==> r == Found(doc.value)) && (!doc.decodes ==> r == LookupFailed(DecodeFailure))
  {
    var id := GenerateThreadIDHash(hash, u1, u2);
    if FetchThread(id) in db.faults then LookupFailed(db.faults[FetchThread(id)])
    else match FirstWithId(db.threads, id)
      case None => NotFound
      case Some(i) => if db.threads[i].decodes then Found(db.threads[i].value) else LookupFailed(DecodeFailure)
  }

  /** `StoreThread`: one insert into the thread collection. */
  function StoreThread(db: Db, t: Thread): (r: Result<Db>)
    ensures r.Err? <==> InsertThread in db.faults
    ensures r.Ok? ==> r.value == db.(threads := db.threads + [Doc(t, true)])
  {
    if InsertThread in db.faults then Err(db.faults[InsertThread])
    else Ok(db.(threads := db.threads + [Doc(t, true)]))
  }

  /** `StoreMessage`: one insert into the message collection. */
  function StoreMessage(db: Db, m: Message): (r: Result<Db>)
    ensures r.Err? <==> InsertMessage in db.faults
    ensures r.Ok? ==> r.value == db.(messages := db.messages + [Doc(m, true)])
  {
    if InsertMessage in db.faults then Err(db.faults[InsertMessage])
    else Ok(db.(messages := db.messages + [Doc(m, true)]))
  }

  // ---------------------------------------------------------------------------
  // Inbox assembly
  // ---------------------------------------------------------------------------

  /** One iteration of the loop of `GetInboxByUserID`: the thread gets its
      newest messages (skip 0), or is left as it was when the fetch fails. */
  function WithMessages(db: Db, t: Thread, messageLimit: int): (r: Thread)
    ensures r.(messages := t.messages) == t
    ensures FindMessages(t.threadId) in db.faults ==> r == t
    ensures FindMessages(t.threadId) !in db.faults ==>
              r.messages == GetAllMessagesByThreadID(db, t.threadId, messageLimit, 0).value
  {
    match GetAllMessagesByThreadID(db, t.threadId, messageLimit, 0)
    case Ok(ms) => t.(messages := ms)
    case Err(_) => t
  }

  /** The loop of `GetInboxByUserID`, over the threads in query order. */
  function AttachMessages(db: Db, threads: seq<Thread>, messageLimit: int): (r: seq<Thread>)
    ensures |r| == |threads|
    ensures forall i :: 0 <= i < |r| ==> r[i] == WithMessages(db, threads[i], messageLimit)
  {
    if |threads| == 0 then []
    else [WithMessages(db, threads[0], messageLimit)] + AttachMessages(db, threads[1..], messageLimit)
  }

  /** `GetInboxByUserID`: the threads query, then one messages query per thread;
      a failed messages query affects only its own thread. */
  function GetInboxByUserID(db: Db, userId: string, messageLimit: int): (r: Result<Inbox>)
    ensures r.Err? <==> FindThreads(userId) in db.faults
    ensures r.Ok? ==> |r.value.threads| == |GetAllThreadsByUserID(db, userId).value|
    ensures r.Ok? ==> forall i :: 0 <= i < |r.value.threads| ==>
              r.value.threads[i] == WithMessages(db, GetAllThreadsByUserID(db, userId).value[i], messageLimit)
  {
    match GetAllThreadsByUserID(db, userId)
    case Err(e) => Err("could not fetch threads: " + e)
    case Ok(threads) => Ok(Inbox(AttachMessages(db, threads, messageLimit)))
  }
}
