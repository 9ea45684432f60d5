/**
 * The signed-in user's profile store: the user record (or none) and a loading flag, with
 * whole-field setters and two partial updates that leave a missing user missing.
 */
module UserStore {
  import opened Wrappers
  import opened Cefr

  datatype UserStats = UserStats(wordsLearned: int, testsPassed: int, chatsCount: int)

  /** A `Partial<UserStats>`: each field either supplied or not. */
  datatype StatsPatch = StatsPatch(wordsLearned: Option<int>, testsPassed: Option<int>, chatsCount: Option<int>)

  datatype User = User(uid: string, email: string, cefrLevel: Option<CefrLevel>, stats: UserStats)

  const DefaultStats: UserStats := UserStats(0, 0, 0)

  const EmptyPatch: StatsPatch := StatsPatch(None, None, None)

  /** `{ ...stats, ...patch }`: the supplied fields overwrite, the others are kept. */
  function MergeStats(stats: UserStats, patch: StatsPatch): (r: UserStats)
    ensures patch.wordsLearned.Some? ==> r.wordsLearned == patch.wordsLearned.value
    ensures patch.wordsLearned.None? ==> r.wordsLearned == stats.wordsLearned
    ensures patch.testsPassed.Some? ==> r.testsPassed == patch.testsPassed.value
    ensures patch.testsPassed.None? ==> r.testsPassed == stats.testsPassed
    ensures patch.chatsCount.Some? ==> r.chatsCount == patch.chatsCount.value
    ensures patch.chatsCount.None? ==> r.chatsCount == stats.chatsCount
  {
    UserStats(
      patch.wordsLearned.GetOr(stats.wordsLearned),
      patch.testsPassed.GetOr(stats.testsPassed),
      patch.chatsCount.GetOr(stats.chatsCount))
  }

  /** The patch that applies `p` and then `q`: a field of `q` wins over the same field of `p`. */
  function Then(p: StatsPatch, q: StatsPatch): StatsPatch {
    StatsPatch(
      if q.wordsLearned.Some? then q.wordsLearned else p.wordsLearned,
      if q.testsPassed.Some? then q.testsPassed else p.testsPassed,
      if q.chatsCount.Some? then q.chatsCount else p.chatsCount)
  }

  /** An empty patch changes nothing. */
  lemma MergeEmpty(stats: UserStats)
    ensures MergeStats(stats, EmptyPatch) == stats
  {
  }

  /** Applying the same patch twice is the same as applying it once. */
  lemma MergeIdempotent(stats: UserStats, patch: StatsPatch)
    ensures MergeStats(MergeStats(stats, patch), patch) == MergeStats(stats, patch)
  {
  }

  /** Two successive updates are one update with the later fields winning. */
  lemma MergeCompose(stats: UserStats, p: StatsPatch, q: StatsPatch)
    ensures MergeStats(MergeStats(stats, p), q) == MergeStats(stats, Then(p, q))
  {
  }

  /** The authentication provider's user: an id and an email that may be absent. */
  datatype AuthUser = AuthUser(uid: string, email: Option<string>)

  /** The profile built for a freshly signed-in user, or none without a user or an email. */
  function MapAuthUser(authUser: Option<AuthUser>): (r: Option<User>)
    ensures r.Some? <==> authUser.Some? && authUser.value.email.Some? && authUser.value.email.value != ""
    ensures r.Some? ==> r.value.uid == authUser.value.uid && r.value.email == authUser.value.email.value
    ensures r.Some? ==> r.value.cefrLevel.None? && r.value.stats == UserStats(0, 0, 0)
  {
    match authUser
    case None => None
    case Some(u) =>
      if u.email.None? || u.email.value == "" then None
      else Some(User(u.uid, u.email.value, None, DefaultStats))
  }

  class UserState {
    var user: Option<User>
    var loading: bool

    /** The initial state: no user, still loading. */
    constructor()
      ensures user.None? && loading
    {
      user := None;
      loading := true;
    }

    method SetUser(u: Option<User>)
      modifies this
      ensures user == u && loading == old(loading)
    {
      user := u;
    }

    method SetLoading(b: bool)
      modifies this
      ensures loading == b && user == old(user)
    {
      loading := b;
    }

    /** Only the level of a present user changes; a missing user stays missing. */
    method UpdateCefrLevel(level: Option<CefrLevel>)
      modifies this
      ensures old(user).None? ==> user.None?
      ensures old(user).Some? ==> user == Some(old(user).value.(cefrLevel := level))
      ensures loading == old(loading)
    {
      if user.Some? {
        user := Some(user.value.(cefrLevel := level));
      }
    }

    /** Only the supplied stats of a present user change; a missing user stays missing. */
    method UpdateStats(patch: StatsPatch)
      modifies this
      ensures old(user).None? ==> user.None?
      ensures old(user).Some? ==> user == Some(old(user).value.(stats := MergeStats(old(user).value.stats, patch)))
      ensures loading == old(loading)
    {
      if user.Some? {
        user := Some(user.value.(stats := MergeStats(user.value.stats, patch)));
      }
    }
  }
}
