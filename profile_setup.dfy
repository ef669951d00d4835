/** First-time profile creation (`ProfileSetup`): a profile row with a
    generated handle, retried on a handle collision a bounded number of
    times. */
module ProfileSetup {
  import opened Types
  import opened Text

  const HANDLE_PREFIX := "User_"
  /** Postgres' unique-violation error code. */
  const UNIQUE_VIOLATION := "23505"
  /** A conflict is retried while the attempt number is below this. */
  const MAX_RETRY_ATTEMPT := 3

  /** `generateHandle`, given the id the browser's `randomUUID` produced:
      the prefix and the id's first eight characters. */
  function GenerateHandle(uuid: string): (handle: string) {
    HANDLE_PREFIX + Take(uuid, 8)
  }

  predicate IsHandleChar(c: char) {
    ('a' <= c <= 'z') || ('A' <= c <= 'Z') || ('0' <= c <= '9') || c == '_'
  }

  /** The handle rule the backend enforces: 3 to 20 letters, digits and underscores. */
  predicate IsValidHandle(h: string) {
    3 <= |h| <= 20 && forall i :: 0 <= i < |h| ==> IsHandleChar(h[i])
  }

  predicate IsLowerHex(c: char) {
    ('0' <= c <= '9') || ('a' <= c <= 'f')
  }

  /** A UUID starts with eight hexadecimal digits, so the generated handle
      is the prefix and those digits: 13 characters that satisfy the handle
      rule. */
  lemma GeneratedHandleIsValid(uuid: string)
    requires |uuid| >= 8 && forall i :: 0 <= i < 8 ==> IsLowerHex(uuid[i])
    ensures |GenerateHandle(uuid)| == 13
    ensures GenerateHandle(uuid)[..5] == HANDLE_PREFIX && GenerateHandle(uuid)[5..] == uuid[..8]
    ensures IsValidHandle(GenerateHandle(uuid))
  {
    var h := GenerateHandle(uuid);
    forall i | 0 <= i < |h|
      ensures IsHandleChar(h[i])
    {
      if i >= 5 {
        assert h[i] == uuid[i - 5];
      }
    }
  }

  /** The row `createProfile` inserts: the user's id, the handle and the
      unset location (0, 0). */
  function ProfileRow(userId: UserId, handle: string): (row: Profile) {
    Profile(userId, handle, 0, 0)
  }

  /** The backend's answer to one insert: the stored row, or an error code
      and message. */
  datatype InsertOutcome = Inserted(row: Profile) | InsertFailed(code: string, message: string)

  /** Whether an outcome at attempt `attempt` starts another attempt. */
  predicate Retries(outcome: InsertOutcome, attempt: nat) {
    outcome.InsertFailed? && outcome.code == UNIQUE_VIOLATION && attempt < MAX_RETRY_ATTEMPT
  }

  /** The row attempt `k` inserts, with the id `uuids(k)`. */
  function AttemptRow(userId: UserId, uuids: nat -> string, k: nat): (row: Profile) {
    ProfileRow(userId, GenerateHandle(uuids(k)))
  }

  /** How a chain of attempts ends: the profile handed to `onComplete`, or
      the error message shown. */
  datatype ChainEnd = Completed(profile: Profile) | Failed(message: string)

  /** The chain `createProfile(attempt)` starts, attempt `k` using the id
      `uuids(k)` and getting the answer `answers(k)`: how it ends and the
      rows it inserts, in order. It makes at least one attempt, and never
      goes past attempt 3 unless it started beyond it. */
  function Chain(userId: UserId, attempt: nat, uuids: nat -> string, answers: nat -> InsertOutcome)
    : (r: (ChainEnd, seq<Profile>))
    ensures 1 <= |r.1|
    ensures attempt + |r.1| <= if attempt <= MAX_RETRY_ATTEMPT then MAX_RETRY_ATTEMPT + 1 else attempt + 1
    decreases MAX_RETRY_ATTEMPT - attempt
  {
    var row := AttemptRow(userId, uuids, attempt);
    match answers(attempt)
    case Inserted(p) => (Completed(p), [row])
    case InsertFailed(code, message) =>
      if Retries(answers(attempt), attempt) then
        var rest := Chain(userId, attempt + 1, uuids, answers);
        (rest.0, [row] + rest.1)
      else (Failed(message), [row])
  }

  /** Attempt `attempt + i` of a chain inserts its `i`-th row. */
  lemma {:induction false} ChainRows(userId: UserId, attempt: nat, uuids: nat -> string, answers: nat -> InsertOutcome)
    ensures var r := Chain(userId, attempt, uuids, answers);
            forall i :: 0 <= i < |r.1| ==> r.1[i] == AttemptRow(userId, uuids, attempt + i)
    decreases MAX_RETRY_ATTEMPT - attempt
  {
    var r := Chain(userId, attempt, uuids, answers);
    if Retries(answers(attempt), attempt) {
      var rest := Chain(userId, attempt + 1, uuids, answers);
      ChainRows(userId, attempt + 1, uuids, answers);
      assert r.1 == [AttemptRow(userId, uuids, attempt)] + rest.1;
      forall i | 0 < i < |r.1|
        ensures r.1[i] == AttemptRow(userId, uuids, attempt + i)
      {
        assert r.1[i] == rest.1[i - 1];
      }
    } else {
      assert r.1 == [AttemptRow(userId, uuids, attempt)];
    }
  }

  /** Every attempt of a chain but the last got a conflict below the bound;
      the last did not, and its answer decides the end. */
  lemma {:induction false} ChainEnds(userId: UserId, attempt: nat, uuids: nat -> string, answers: nat -> InsertOutcome)
    ensures var r := Chain(userId, attempt, uuids, answers);
            && (forall k :: attempt <= k < attempt + |r.1| - 1 ==> Retries(answers(k), k))
            && var last := attempt + |r.1| - 1;
               && !Retries(answers(last), last)
               && (r.0.Completed? <==> answers(last).Inserted?)
               && (r.0.Completed? ==> r.0.profile == answers(last).row)
               && (r.0.Failed? ==> r.0.message == answers(last).message)
    decreases MAX_RETRY_ATTEMPT - attempt
  {
    var r := Chain(userId, attempt, uuids, answers);
    if Retries(answers(attempt), attempt) {
      var rest := Chain(userId, attempt + 1, uuids, answers);
      ChainEnds(userId, attempt + 1, uuids, answers);
      assert |r.1| == 1 + |rest.1| && r.0 == rest.0;
    } else {
      assert |r.1| == 1;
    }
  }

  /** Started at attempt 0 (on mount and by "Try again"), a chain makes at
      most four inserts. */
  lemma ChainBound(userId: UserId, uuids: nat -> string, answers: nat -> InsertOutcome)
    ensures |Chain(userId, 0, uuids, answers).1| <= 4
  {
  }

  /** Four conflicts in a row: four inserts, and the fourth conflict's
      message is shown. */
  lemma FourConflictsFail(userId: UserId, uuids: nat -> string, answers: nat -> InsertOutcome)
    requires forall k :: 0 <= k <= MAX_RETRY_ATTEMPT ==> answers(k).InsertFailed? && answers(k).code == UNIQUE_VIOLATION
    ensures Chain(userId, 0, uuids, answers) == (Failed(answers(3).message),
              [AttemptRow(userId, uuids, 0), AttemptRow(userId, uuids, 1),
               AttemptRow(userId, uuids, 2), AttemptRow(userId, uuids, 3)])
  {
    var c := Chain(userId, 0, uuids, answers);
    ChainRows(userId, 0, uuids, answers);
    ChainEnds(userId, 0, uuids, answers);
    var last := |c.1| - 1;
    assert Retries(answers(last), last) ==> false;
    assert last == 3;
    assert c.1 == [c.1[0], c.1[1], c.1[2], c.1[3]];
  }

  /** Any error other than a conflict ends the chain at that attempt with
      its message. */
  lemma OtherErrorStops(userId: UserId, attempt: nat, uuids: nat -> string, answers: nat -> InsertOutcome)
    requires answers(attempt).InsertFailed? && answers(attempt).code != UNIQUE_VIOLATION
    ensures Chain(userId, attempt, uuids, answers)
            == (Failed(answers(attempt).message), [AttemptRow(userId, uuids, attempt)])
  {
  }

  /** The row attempt `k` of a chain started at `start` inserts. */
  lemma ChainRowAt(userId: UserId, start: nat, k: nat, uuids: nat -> string, answers: nat -> InsertOutcome)
    requires start <= k < start + |Chain(userId, start, uuids, answers).1|
    ensures Chain(userId, start, uuids, answers).1[k - start] == AttemptRow(userId, uuids, k)
  {
    ChainRows(userId, start, uuids, answers);
  }

  /** An attempt that does not retry is the chain's last, and decides its end. */
  lemma ChainEndsAt(userId: UserId, start: nat, attempt: nat, uuids: nat -> string, answers: nat -> InsertOutcome)
    requires start <= attempt < start + |Chain(userId, start, uuids, answers).1|
    requires !Retries(answers(attempt), attempt)
    ensures var c := Chain(userId, start, uuids, answers);
            && attempt == start + |c.1| - 1
            && c.0 == match answers(attempt)
                      case Inserted(p) => Completed(p)
                      case InsertFailed(_, message) => Failed(message)
  {
    ChainEnds(userId, start, uuids, answers);
  }

  /** An attempt that retries is not the chain's last. */
  lemma ChainContinues(userId: UserId, start: nat, attempt: nat, uuids: nat -> string, answers: nat -> InsertOutcome)
    requires start <= attempt < start + |Chain(userId, start, uuids, answers).1|
    requires Retries(answers(attempt), attempt)
    ensures attempt + 1 < start + |Chain(userId, start, uuids, answers).1|
  {
    ChainEnds(userId, start, uuids, answers);
  }

  class ProfileSetup {
    const userId: UserId
    /** the message shown; empty while creating */
    var error: string
    /** rows sent to the backend, in order */
    var inserts: seq<Profile>
    /** the profile handed to `onComplete`, once one was */
    var completed: Option<Profile>

    constructor (userId: UserId)
      ensures this.userId == userId && error == "" && inserts == [] && completed == None
    {
      this.userId := userId;
      error, inserts, completed := "", [], None;
    }

    /** `createProfile(start)` run to its end: each attempt clears the
        error, inserts a fresh row, and either completes, retries on a
        conflict below the bound, or shows the backend's message. */
    method CreateProfile(start: nat, uuids: nat -> string, answers: nat -> InsertOutcome) returns (end: ChainEnd)
      modifies this`error, this`inserts, this`completed
      ensures end == Chain(userId, start, uuids, answers).0
      ensures inserts == old(inserts) + Chain(userId, start, uuids, answers).1
      ensures error == if end.Failed? then end.message else ""
      ensures completed == if end.Completed? then Some(end.profile) else old(completed)
    {
      ghost var chain := Chain(userId, start, uuids, answers);
      var attempt := start;
      error := "";
      ChainRowAt(userId, start, attempt, uuids, answers);
      inserts := inserts + [AttemptRow(userId, uuids, attempt)];
      while Retries(answers(attempt), attempt)
        invariant start <= attempt < start + |chain.1|
        invariant inserts == old(inserts) + chain.1[..attempt + 1 - start]
        invariant error == "" && completed == old(completed)
        decreases MAX_RETRY_ATTEMPT - attempt
      {
        ChainContinues(userId, start, attempt, uuids, answers);
        attempt := attempt + 1;
        error := "";
        ChainRowAt(userId, start, attempt, uuids, answers);
        assert chain.1[..attempt - start] + [chain.1[attempt - start]] == chain.1[..attempt + 1 - start];
        inserts := inserts + [AttemptRow(userId, uuids, attempt)];
      }
      ChainEndsAt(userId, start, attempt, uuids, answers);
      assert chain.1[..attempt + 1 - start] == chain.1;
      var answer := answers(attempt);
      if answer.Inserted? {
        completed := Some(answer.row);
        end := Completed(answer.row);
      } else {
        error := answer.message;
        end := Failed(answer.message);
      }
    }

    /** The error card is rendered when there is a message to show. */
    predicate ErrorShown()
      reads this
    {
      error != ""
    }

    /** "Try again": a new chain from attempt 0. */
    method TryAgain(uuids: nat -> string, answers: nat -> InsertOutcome) returns (end: ChainEnd)
      modifies this`error, this`inserts, this`completed
      ensures end == Chain(userId, 0, uuids, answers).0
      ensures inserts == old(inserts) + Chain(userId, 0, uuids, answers).1
      ensures |inserts| <= |old(inserts)| + 4
      ensures error == if end.Failed? then end.message else ""
      ensures completed == if end.Completed? then Some(end.profile) else old(completed)
    {
      ChainBound(userId, uuids, answers);
      end := CreateProfile(0, uuids, answers);
    }
  }
}
