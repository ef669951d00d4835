/** A direct-message conversation (`DMConversation`) between the signed-in
    profile and one other user: the thread both ways, oldest first, and a
    throttled send from an uncontrolled text area. */
module Conversation {
  import opened Types
  import opened Text
  import opened Throttle

  /** The text area's `maxLength`. */
  const INPUT_MAX := 500

  /** The row `handleSend` inserts. */
  datatype DMInsert = DMInsert(senderId: UserId, recipientId: UserId, body: string)

  /** The `.or(...)` filter of the thread query: sent by one of the two to
      the other. */
  predicate InThread(m: DMMessage, meId: UserId, otherId: UserId) {
    (m.senderId == meId && m.recipientId == otherId) || (m.senderId == otherId && m.recipientId == meId)
  }

  /** The thread query orders by creation time, oldest first. */
  predicate OldestFirst(ms: seq<DMMessage>) {
    forall i, j :: 0 <= i < j < |ms| ==> ms[i].createdAt <= ms[j].createdAt
  }

  /** The thread, as the backend answers the query over all direct
      messages `rows` (already ordered by creation time): the rows of the
      two participants, in order. */
  function Thread(rows: seq<DMMessage>, meId: UserId, otherId: UserId): (r: seq<DMMessage>)
    ensures |r| <= |rows|
    ensures forall m :: m in r <==> m in rows && InThread(m, meId, otherId)
  {
    if rows == [] then []
    else
      var rest := Thread(rows[1..], meId, otherId);
      if InThread(rows[0], meId, otherId) then [rows[0]] + rest else rest
  }

  /** Filtering keeps the query's order: a thread cut from rows ordered
      oldest first is itself oldest first. */
  lemma {:induction false} ThreadOldestFirst(rows: seq<DMMessage>, meId: UserId, otherId: UserId)
    requires OldestFirst(rows)
    ensures OldestFirst(Thread(rows, meId, otherId))
  {
    if rows != [] {
      var tail := rows[1..];
      var rest := Thread(tail, meId, otherId);
      assert OldestFirst(tail) by {
        forall i, j | 0 <= i < j < |tail|
          ensures tail[i].createdAt <= tail[j].createdAt
        {
          assert tail[i] == rows[i + 1] && tail[j] == rows[j + 1];
        }
      }
      ThreadOldestFirst(tail, meId, otherId);
      if InThread(rows[0], meId, otherId) {
        var r := [rows[0]] + rest;
        forall i, j | 0 <= i < j < |r|
          ensures r[i].createdAt <= r[j].createdAt
        {
          if i == 0 {
            assert r[j] in tail;
            var k :| 0 <= k < |tail| && tail[k] == r[j];
            assert rows[k + 1] == r[j];
          } else {
            assert r[i] == rest[i - 1] && r[j] == rest[j - 1];
          }
        }
      }
    }
  }

  /** The thread is the same seen from either side. */
  lemma {:induction false} ThreadSymmetric(rows: seq<DMMessage>, a: UserId, b: UserId)
    ensures Thread(rows, a, b) == Thread(rows, b, a)
  {
    if rows != [] {
      ThreadSymmetric(rows[1..], a, b);
    }
  }

  /** What a successful thread fetch puts on screen, when the backend
      answers the query over the whole `dm_messages` table `table` (ordered
      by creation time): exactly the two participants' messages, oldest
      first, each either one's own to the other user or the other user's
      to oneself. */
  lemma FetchedThreadShown(table: seq<DMMessage>, meId: UserId, otherId: UserId)
    ensures var shown := FetchedRows(QueryOk(Some(Thread(table, meId, otherId))));
      && (forall m :: m in shown <==> m in table && InThread(m, meId, otherId))
      && (OldestFirst(table) ==> OldestFirst(shown))
      && (forall m :: m in shown ==>
            (IsOwn(m, meId) && m.recipientId == otherId)
            || (m.senderId == otherId && m.recipientId == meId))
  {
    if OldestFirst(table) {
      ThreadOldestFirst(table, meId, otherId);
    }
  }

  /** `isOwn`: the signed-in profile sent it. */
  function IsOwn(m: DMMessage, meId: UserId): (own: bool)
    ensures own <==> m.senderId == meId
  {
    m.senderId == meId
  }

  /** In a thread with someone else, a message that is not one's own was
      sent by the other participant to oneself. */
  lemma NotOwnIsFromOther(m: DMMessage, meId: UserId, otherId: UserId)
    requires InThread(m, meId, otherId) && meId != otherId
    ensures !IsOwn(m, meId) <==> m.senderId == otherId
    ensures !IsOwn(m, meId) ==> m.recipientId == meId
  {
  }

  /** The conversation's state. `handleSend` awaits its insert between
      the throttle check and `setLastSentAt`, and neither the text area nor
      the Send button is disabled meanwhile, so the handler is split at the
      await: `BeginSend` checks the throttle and issues the insert,
      `SendAnswered` takes the insert's answer. Sends whose answer has not
      arrived yet are tracked by their `now`. */
  class DMConversation {
    const me: Profile
    const otherId: UserId
    var messages: seq<DMMessage>
    var loading: bool
    var lastSentAt: int
    /** the text area's current value */
    var input: string
    /** rows sent to the backend, in order */
    var inserts: seq<DMInsert>
    /** the `now` of each admitted send whose insert has not answered yet */
    ghost var inFlight: multiset<int>
    /** the `now` of each successful send, in the order the answers came */
    ghost var acceptedAt: seq<int>

    ghost predicate Valid()
      reads this
    {
      && lastSentAt == LastSent(acceptedAt)
      && |input| <= INPUT_MAX
    }

    constructor (me: Profile, otherId: UserId)
      ensures Valid() && this.me == me && this.otherId == otherId
      ensures messages == [] && loading && lastSentAt == 0 && input == "" && inserts == []
      ensures inFlight == multiset{} && acceptedAt == []
    {
      this.me := me;
      this.otherId := otherId;
      messages, loading, lastSentAt, input, inserts := [], true, 0, "", [];
      inFlight, acceptedAt := multiset{}, [];
    }

    /** `fetchMessages` completes. */
    method OnMessagesFetched(result: QueryResult<seq<DMMessage>>)
      modifies this`messages, this`loading
      ensures messages == FetchedRows(result) && !loading
    {
      messages := FetchedRows(result);
      loading := false;
    }

    /** Typing into the text area, which keeps at most 500 characters. */
    method Type(value: string)
      requires Valid()
      modifies this`input
      ensures Valid()
      ensures input == Take(value, INPUT_MAX)
    {
      input := Take(value, INPUT_MAX);
    }

    /** `handleSend(body)` at time `now`, up to the await: refused inside
        the throttle window of the `lastSentAt` it reads; otherwise the
        trimmed body is inserted from this profile to the other user and
        the send waits for its answer. */
    method BeginSend(body: string, now: int) returns (admitted: bool)
      requires Valid()
      modifies this`inserts, this`inFlight
      ensures Valid()
      ensures admitted <==> Admits(lastSentAt, now)
      ensures inserts == if admitted then old(inserts) + [DMInsert(me.id, otherId, Trim(body))] else old(inserts)
      ensures inFlight == if admitted then old(inFlight) + multiset{now} else old(inFlight)
    {
      admitted := Admits(lastSentAt, now);
      if admitted {
        inserts := inserts + [DMInsert(me.id, otherId, Trim(body))];
        inFlight := inFlight + multiset{now};
      }
    }

    /** The insert of the send begun at `sentAt` answers: only a success
        counts, and it records `sentAt` as the last send, whatever other
        sends have begun or ended meanwhile. */
    method SendAnswered(sentAt: int, insertError: Option<string>) returns (ok: bool)
      requires Valid() && sentAt in inFlight
      modifies this`lastSentAt, this`inFlight, this`acceptedAt
      ensures Valid()
      ensures ok <==> insertError.None?
      ensures inFlight == old(inFlight) - multiset{sentAt}
      ensures lastSentAt == (if ok then sentAt else old(lastSentAt))
      ensures acceptedAt == if ok then old(acceptedAt) + [sentAt] else old(acceptedAt)
    {
      inFlight := inFlight - multiset{sentAt};
      ok := insertError.None?;
      if ok {
        lastSentAt := sentAt;
        acceptedAt := acceptedAt + [sentAt];
      }
    }

    /** The form's submit at time `now`, up to the await: a blank text area
        sends nothing; otherwise its text goes to `handleSend`. The text
        area keeps its text while the send is pending. */
    method Submit(now: int) returns (admitted: bool)
      requires Valid()
      modifies this`inserts, this`inFlight
      ensures Valid()
      ensures AllWhitespace(input) ==> !admitted && inserts == old(inserts) && inFlight == old(inFlight)
      ensures !AllWhitespace(input) ==> admitted == Admits(lastSentAt, now)
      ensures inserts == if admitted then old(inserts) + [DMInsert(me.id, otherId, Trim(input))] else old(inserts)
      ensures inFlight == if admitted then old(inFlight) + multiset{now} else old(inFlight)
    {
      TrimSpec(input);
      if Trim(input) == [] {
        return false;
      }
      admitted := BeginSend(input, now);
    }

    /** The send begun by a submit at `sentAt` answers: the text area is
        cleared only when it succeeded, whatever it holds by then. */
    method SubmitAnswered(sentAt: int, insertError: Option<string>) returns (ok: bool)
      requires Valid() && sentAt in inFlight
      modifies this`lastSentAt, this`inFlight, this`acceptedAt, this`input
      ensures Valid()
      ensures ok <==> insertError.None?
      ensures inFlight == old(inFlight) - multiset{sentAt}
      ensures lastSentAt == (if ok then sentAt else old(lastSentAt))
      ensures acceptedAt == if ok then old(acceptedAt) + [sentAt] else old(acceptedAt)
      ensures input == if ok then "" else old(input)
    {
      ok := SendAnswered(sentAt, insertError);
      if ok {
        input := "";
      }
    }
  }

  /** Two clicks on Send 1 ms apart, the second before the first insert
      has answered: both read the same `lastSentAt`, both are admitted, and
      the same text is inserted twice, 1 ms apart, inside the throttle
      window. */
  method OverlappingSubmits(me: Profile, otherId: UserId, text: string, now: int)
    returns (c: DMConversation, first: bool, second: bool)
    requires !AllWhitespace(text) && |text| <= INPUT_MAX && now >= THROTTLE_MS
    ensures first && second
    ensures c.inserts == [DMInsert(me.id, otherId, Trim(text)), DMInsert(me.id, otherId, Trim(text))]
    ensures c.acceptedAt == [now, now + 1] && !Spaced(c.acceptedAt)
    ensures c.lastSentAt == now + 1
  {
    c := new DMConversation(me, otherId);
    c.Type(text);
    assert c.input == text;
    first := c.Submit(now);
    second := c.Submit(now + 1);
    var ok1 := c.SubmitAnswered(now, None);
    var ok2 := c.SubmitAnswered(now + 1, None);
    assert [now, now + 1][..1] == [now];
  }
}
