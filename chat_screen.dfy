/** The public chat screen (`ChatScreen`): the feed of the last day's
    messages minus blocked handles, the throttled send, and reporting. */
module Chat {
  import opened Types
  import opened Text
  import opened Throttle
  import TimeFormat
  import BlockList

  /** The feed window, `24 * 60 * 60 * 1000` ms. */
  const FEED_WINDOW_MS := 24 * 60 * 60 * 1000

  /** The row `handleSend` inserts. */
  datatype MessageInsert = MessageInsert(handle: string, body: string, latRounded: int, lonRounded: int)

  /** The row `handleSend` inserts for `body` on behalf of `profile`: the
      profile's handle and coordinates and the trimmed body. */
  function SendRow(profile: Profile, body: string): (row: MessageInsert) {
    MessageInsert(profile.handle, Trim(body), profile.latRounded, profile.lonRounded)
  }

  /** The row `handleReport` inserts; a missing reason is stored as null (`None`). */
  datatype ReportInsert = ReportInsert(messageId: string, reporterId: UserId, reason: Option<string>)

  /** The earliest creation time the feed query asks for (`.gte("created_at", cutoff)`). */
  function FeedCutoff(now: int): (cutoff: int)
    ensures now - cutoff == TimeFormat.DAY_MS
  {
    now - FEED_WINDOW_MS
  }

  /** A message the feed query fetched at `fetchNow` is at most a day old
      then. Labelled at `renderNow`, it gets a date instead of a relative
      time only once it has stayed on screen at least as long as it was
      younger than a day when fetched: labelled at the instant of the
      fetch, only a message created exactly at the cutoff gets a date. */
  lemma FeedMessagesShowRelativeTime(fetchNow: int, renderNow: int, createdAt: int)
    requires createdAt >= FeedCutoff(fetchNow) && renderNow >= fetchNow
    ensures TimeFormat.BucketOf(renderNow - createdAt).OlderThanADay? <==>
              renderNow - fetchNow >= createdAt - FeedCutoff(fetchNow)
    ensures renderNow == fetchNow ==>
              (TimeFormat.BucketOf(renderNow - createdAt).OlderThanADay? <==> createdAt == FeedCutoff(fetchNow))
  {
  }

  /** `visibleMessages`: the messages whose handle is not blocked. A
      message is visible exactly when it was fetched and its handle is not
      blocked. */
  function Visible(messages: seq<Message>, blocked: seq<string>): (r: seq<Message>)
    ensures |r| <= |messages|
    ensures forall m :: m in r <==> m in messages && m.handle !in blocked
  {
    if messages == [] then []
    else (if messages[0].handle in blocked then [] else [messages[0]]) + Visible(messages[1..], blocked)
  }

  /** One step of the filter, on a message in front of others. */
  lemma VisibleCons(m: Message, rest: seq<Message>, blocked: seq<string>)
    ensures Visible([m] + rest, blocked)
            == (if m.handle in blocked then [] else [m]) + Visible(rest, blocked)
  {
    assert ([m] + rest)[1..] == rest;
  }

  /** Filtering distributes over concatenation: visible messages keep the
      relative order they were fetched in. */
  lemma {:induction false} VisibleConcat(a: seq<Message>, b: seq<Message>, blocked: seq<string>)
    ensures Visible(a + b, blocked) == Visible(a, blocked) + Visible(b, blocked)
  {
    if a != [] {
      var m := a[0];
      assert a == [m] + a[1..];
      assert a + b == [m] + (a[1..] + b);
      VisibleCons(m, a[1..] + b, blocked);
      VisibleCons(m, a[1..], blocked);
      VisibleConcat(a[1..], b, blocked);
    } else {
      assert a + b == b;
    }
  }

  /** Nothing blocked in the feed means nothing hidden. */
  lemma {:induction false} VisibleAllWhenNoneBlocked(messages: seq<Message>, blocked: seq<string>)
    requires forall i :: 0 <= i < |messages| ==> messages[i].handle !in blocked
    ensures Visible(messages, blocked) == messages
  {
    if messages != [] {
      VisibleAllWhenNoneBlocked(messages[1..], blocked);
    }
  }

  /** Blocking `h` hides exactly `h`'s messages from what was visible. */
  lemma {:induction false} BlockHidesHandle(messages: seq<Message>, blocked: seq<string>, h: string)
    ensures Visible(messages, BlockList.Add(blocked, h)) == Visible(Visible(messages, blocked), [h])
  {
    if messages != [] {
      var m, tail := messages[0], messages[1..];
      assert messages == [m] + tail;
      BlockHidesHandle(tail, blocked, h);
      var added := BlockList.Add(blocked, h);
      VisibleCons(m, tail, added);
      VisibleCons(m, tail, blocked);
      if m.handle in blocked {
        assert m.handle in added;
        assert Visible(messages, added) == Visible(tail, added);
        assert Visible(messages, blocked) == Visible(tail, blocked);
      } else {
        var rest := Visible(tail, blocked);
        VisibleCons(m, rest, [h]);
        assert Visible(messages, blocked) == [m] + rest;
        assert m.handle in added <==> m.handle in [h];
      }
    }
  }

  /** `handleReport`: the report row inserted, or none when no user is
      signed in. */
  function ReportFor(messageId: string, reason: Option<string>, user: Option<User>): (r: Option<ReportInsert>)
    ensures r.None? <==> user.None?
    ensures r.Some? ==> r.value.messageId == messageId && r.value.reporterId == user.value.id
                        && r.value.reason == reason
  {
    if user.None? then None else Some(ReportInsert(messageId, user.value.id, reason))
  }

  class ChatScreen {
    const profile: Profile
    const blocks: BlockList.BlockList
    var messages: seq<Message>
    var loading: bool
    var refreshing: bool
    var lastSentAt: int
    /** rows sent to the backend, in order */
    var inserts: seq<MessageInsert>
    /** times of the accepted sends, in order */
    ghost var acceptedAt: seq<int>

    ghost predicate Valid()
      reads this
    {
      && Spaced(acceptedAt)
      && lastSentAt == LastSent(acceptedAt)
    }

    constructor (profile: Profile, blocks: BlockList.BlockList)
      ensures Valid() && this.profile == profile && this.blocks == blocks
      ensures messages == [] && loading && !refreshing && lastSentAt == 0 && inserts == []
    {
      this.profile := profile;
      this.blocks := blocks;
      messages, loading, refreshing, lastSentAt, inserts := [], true, false, 0, [];
      acceptedAt := [];
    }

    /** `fetchMessages` completes: the feed is replaced and both spinners stop. */
    method OnMessagesFetched(result: QueryResult<seq<Message>>)
      modifies this
      ensures messages == FetchedRows(result) && !loading && !refreshing
      ensures lastSentAt == old(lastSentAt) && inserts == old(inserts) && acceptedAt == old(acceptedAt)
    {
      messages := FetchedRows(result);
      loading := false;
      refreshing := false;
    }

    /** `handleRefresh`: a refetch starts. */
    method Refresh()
      modifies this`refreshing
      ensures refreshing
    {
      refreshing := true;
    }

    /** The refresh button is disabled while any fetch is outstanding. */
    predicate RefreshDisabled()
      reads this
    {
      refreshing || loading
    }

    /** `handleSend(body)` at time `now`, the insert answering
        `insertError`. Inside the throttle window nothing is inserted and
        the send is refused; otherwise the row carries the profile's handle
        and coordinates and the trimmed body, and only a successful insert
        counts as a send. */
    method HandleSend(body: string, now: int, insertError: Option<string>) returns (ok: bool)
      requires Valid()
      modifies this`inserts, this`lastSentAt, this`acceptedAt
      ensures Valid()
      ensures ok <==> Admits(old(lastSentAt), now) && insertError.None?
      ensures inserts == if Admits(old(lastSentAt), now) then old(inserts) + [SendRow(profile, body)] else old(inserts)
      ensures lastSentAt == (if ok then now else old(lastSentAt))
      ensures acceptedAt == if ok then old(acceptedAt) + [now] else old(acceptedAt)
    {
      var admitted := Admits(lastSentAt, now);
      if admitted {
        AdmittedKeepsSpaced(acceptedAt, now);
        inserts := inserts + [SendRow(profile, body)];
      }
      ok := admitted && insertError.None?;
      if ok {
        lastSentAt := now;
        acceptedAt := acceptedAt + [now];
      }
    }

    /** The feed as rendered. */
    function VisibleMessages(): (r: seq<Message>)
      reads this, blocks
      ensures forall m :: m in r <==> m in messages && !blocks.IsBlocked(m.handle)
    {
      Visible(messages, blocks.blocked)
    }
  }
}
