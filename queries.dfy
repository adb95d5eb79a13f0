/**
 * The data hooks (useQueries.ts): three cached reads keyed by name and
 * three mutations that, on success only, mark the affected read stale.
 *
 * The remote actor is an input. When present it is a `Remote`: the
 * replies the service gives to the three reads. Each mutation gets the
 * service's answer to that call as a `reply`. Deduplication, refetching
 * and retries inside the query library are not modelled; only the
 * freshness of each key is.
 */
module Queries {
  import opened Domain

  /** The three query keys: `['sweets']`, `['reviews']`, `['callerUserRole']`. */
  datatype QueryKey = SweetsKey | ReviewsKey | CallerUserRoleKey

  /** The literal key each hook registers under. */
  function KeyName(k: QueryKey): string {
    match k
    case SweetsKey => "sweets"
    case ReviewsKey => "reviews"
    case CallerUserRoleKey => "callerUserRole"
  }

  /** Distinct keys are registered under distinct names. */
  lemma KeyNamesDistinct(a: QueryKey, b: QueryKey)
    ensures KeyName(a) == KeyName(b) ==> a == b
  {
    if a != b {
      assert KeyName(a)[0] != KeyName(b)[0] || |KeyName(a)| != |KeyName(b)|;
    }
  }

  const AllKeys: set<QueryKey> := {SweetsKey, ReviewsKey, CallerUserRoleKey}

  /** The remote service's answers to the three reads. */
  datatype Remote = Remote(allSweets: Reply<seq<Sweet>>, allReviews: Reply<seq<Review>>, callerRole: Reply<UserRole>)

  /** What a read resolves to, one shape per key. */
  datatype QueryData = SweetsData(sweets: seq<Sweet>) | ReviewsData(reviews: seq<Review>) | RoleData(role: UserRole)

  /** The data shape registered under `key`. */
  predicate Fits(key: QueryKey, d: QueryData) {
    match key
    case SweetsKey => d.SweetsData?
    case ReviewsKey => d.ReviewsData?
    case CallerUserRoleKey => d.RoleData?
  }

  /**
   * The `queryFn` of each read hook. Without an actor the two list reads
   * resolve to an empty list and the role read rejects; with one, each read
   * passes on the service's answer for its key.
   */
  function QueryFn(key: QueryKey, actor: Option<Remote>): (r: Reply<QueryData>)
    ensures r.Resolved? ==> Fits(key, r.value)
    ensures actor.None? && key == SweetsKey ==> r == Resolved(SweetsData([]))
    ensures actor.None? && key == ReviewsKey ==> r == Resolved(ReviewsData([]))
    ensures actor.None? && key == CallerUserRoleKey ==> r == Rejected(ActorNotAvailable)
    ensures actor.Some? && key == SweetsKey && actor.value.allSweets.Resolved? ==> r == Resolved(SweetsData(actor.value.allSweets.value))
    ensures actor.Some? && key == ReviewsKey && actor.value.allReviews.Resolved? ==> r == Resolved(ReviewsData(actor.value.allReviews.value))
    ensures actor.Some? && key == CallerUserRoleKey && actor.value.callerRole.Resolved? ==> r == Resolved(RoleData(actor.value.callerRole.value))
    ensures actor.Some? && key == SweetsKey && actor.value.allSweets.Rejected? ==> r == Rejected(actor.value.allSweets.message)
    ensures actor.Some? && key == ReviewsKey && actor.value.allReviews.Rejected? ==> r == Rejected(actor.value.allReviews.message)
    ensures actor.Some? && key == CallerUserRoleKey && actor.value.callerRole.Rejected? ==> r == Rejected(actor.value.callerRole.message)
  {
    match actor
    case None =>
      if key == CallerUserRoleKey then Rejected(ActorNotAvailable)
      else if key == SweetsKey then Resolved(SweetsData([]))
      else Resolved(ReviewsData([]))
    case Some(remote) => ReplyFor(key, remote)
  }

  /**
   * The service's answer to the read registered under `key`, passed on
   * unchanged: its data on success, its message on failure.
   */
  function ReplyFor(key: QueryKey, remote: Remote): (r: Reply<QueryData>)
    ensures r.Resolved? ==> Fits(key, r.value)
    ensures key == SweetsKey && remote.allSweets.Resolved? ==> r == Resolved(SweetsData(remote.allSweets.value))
    ensures key == ReviewsKey && remote.allReviews.Resolved? ==> r == Resolved(ReviewsData(remote.allReviews.value))
    ensures key == CallerUserRoleKey && remote.callerRole.Resolved? ==> r == Resolved(RoleData(remote.callerRole.value))
    ensures key == SweetsKey && remote.allSweets.Rejected? ==> r == Rejected(remote.allSweets.message)
    ensures key == ReviewsKey && remote.allReviews.Rejected? ==> r == Rejected(remote.allReviews.message)
    ensures key == CallerUserRoleKey && remote.callerRole.Rejected? ==> r == Rejected(remote.callerRole.message)
  {
    match key
    case SweetsKey =>
      if remote.allSweets.Resolved? then Resolved(SweetsData(remote.allSweets.value)) else Rejected(remote.allSweets.message)
    case ReviewsKey =>
      if remote.allReviews.Resolved? then Resolved(ReviewsData(remote.allReviews.value)) else Rejected(remote.allReviews.message)
    case CallerUserRoleKey =>
      if remote.callerRole.Resolved? then Resolved(RoleData(remote.callerRole.value)) else Rejected(remote.callerRole.message)
  }

  const ActorNotAvailable := "Actor not available"
  const ActorNotInitialized := "Actor not initialized"

  /** The options every read hook passes besides its key and `queryFn`. */
  datatype QueryOptions = QueryOptions(enabled: bool, retryDisabled: bool)

  /**
   * Every read runs only once an actor exists and is no longer being
   * fetched; only the role read turns retries off.
   */
  function OptionsFor(key: QueryKey, actor: Option<Remote>, isFetching: bool): (o: QueryOptions)
    ensures o.enabled <==> actor.Some? && !isFetching
    ensures o.retryDisabled <==> key == CallerUserRoleKey
  {
    QueryOptions(actor.Some? && !isFetching, key == CallerUserRoleKey)
  }

  /**
   * An enabled read never takes the no-actor fallback: it always passes
   * on the service's answer for its key.
   */
  lemma EnabledReadUsesActor(key: QueryKey, actor: Option<Remote>, isFetching: bool)
    ensures OptionsFor(key, actor, isFetching).enabled ==> actor.Some? && QueryFn(key, actor) == ReplyFor(key, actor.value)
  {
  }

  /** The three mutations with the arguments their `mutationFn` sends. */
  datatype Mutation =
    | SubmitReview(rating: int, reviewText: Option<string>)
    | AddSweet(sweet: Sweet)
    | UpdateSweetPrice(name: string, newPrice: int)

  /**
   * The keys a mutation's `onSuccess` invalidates: exactly one key each,
   * `reviews` for a review and `sweets` for either catalog change, and never
   * the role key.
   */
  function Invalidates(m: Mutation): (keys: set<QueryKey>)
    ensures |keys| == 1
    ensures CallerUserRoleKey !in keys
    ensures ReviewsKey in keys <==> m.SubmitReview?
    ensures SweetsKey in keys <==> (m.AddSweet? || m.UpdateSweetPrice?)
  {
    if m.SubmitReview? then {ReviewsKey} else {SweetsKey}
  }

  /**
   * How a mutation settles: without an actor it throws before any remote
   * call, otherwise it settles as the service answered.
   */
  function Settle(actor: Option<Remote>, reply: Reply<()>): (r: Reply<()>)
    ensures actor.None? ==> r == Rejected(ActorNotInitialized)
    ensures actor.Some? ==> r == reply
  {
    if actor.None? then Rejected(ActorNotInitialized) else reply
  }

  datatype Freshness = Fresh | Stale

  /** Marks the given keys stale and leaves the others as they were. */
  function MarkStale(f: map<QueryKey, Freshness>, keys: set<QueryKey>): (g: map<QueryKey, Freshness>)
    ensures g.Keys == f.Keys
    ensures forall k :: k in g ==> g[k] == (if k in keys then Stale else f[k])
  {
    map k | k in f :: if k in keys then Stale else f[k]
  }

  /** The freshness a settled mutation leaves behind: a failure leaves it as it was. */
  function AfterMutation(f: map<QueryKey, Freshness>, m: Mutation, result: Reply<()>): (g: map<QueryKey, Freshness>)
    ensures g.Keys == f.Keys
    ensures result.Rejected? ==> g == f
    ensures result.Resolved? ==> forall k :: k in g ==> (g[k] == Stale <==> k in Invalidates(m) || f[k] == Stale)
  {
    if result.Resolved? then MarkStale(f, Invalidates(m)) else f
  }

  /**
   * Cache isolation: after any mutation, whatever its outcome, the role key
   * keeps its freshness; a review leaves the catalog key as it was and a
   * catalog change leaves the review key as it was. A successful mutation
   * marks its own key stale.
   */
  lemma MutationIsolation(f: map<QueryKey, Freshness>, m: Mutation, result: Reply<()>)
    requires f.Keys == AllKeys
    ensures var g := AfterMutation(f, m, result);
            && g.Keys == f.Keys
            && g[CallerUserRoleKey] == f[CallerUserRoleKey]
            && (m.SubmitReview? ==> g[SweetsKey] == f[SweetsKey])
            && (!m.SubmitReview? ==> g[ReviewsKey] == f[ReviewsKey])
            && (result.Rejected? ==> g == f)
            && (result.Resolved? ==> forall k :: k in Invalidates(m) ==> g[k] == Stale)
  {
  }

  /**
   * The query client shared by every hook: the freshness of each key, and
   * (as a ghost log) the mutation calls that reached the remote service.
   */
  class QueryCache {
    var freshness: map<QueryKey, Freshness>
    ghost var sent: seq<Mutation>

    ghost predicate Valid()
      reads this
    {
      freshness.Keys == AllKeys
    }

    /** A client that has every key fresh and has sent nothing. */
    constructor ()
      ensures Valid()
      ensures forall k :: k in freshness ==> freshness[k] == Fresh
      ensures sent == []
    {
      freshness := map[SweetsKey := Fresh, ReviewsKey := Fresh, CallerUserRoleKey := Fresh];
      sent := [];
    }

    /**
     * `mutate`: run `m`'s `mutationFn` and, on success only, its
     * `onSuccess` invalidation. The call reaches the service only when an
     * actor exists.
     */
    method Run(m: Mutation, actor: Option<Remote>, reply: Reply<()>) returns (result: Reply<()>)
      requires Valid()
      modifies this
      ensures Valid()
      ensures result == Settle(actor, reply)
      ensures sent == old(sent) + (if actor.Some? then [m] else [])
      ensures freshness == AfterMutation(old(freshness), m, result)
    {
      if actor.None? {
        result := Rejected(ActorNotInitialized);
        return;
      }
      sent := sent + [m];
      result := reply;
      if result.Resolved? {
        freshness := MarkStale(freshness, Invalidates(m));
      }
    }
  }
}
