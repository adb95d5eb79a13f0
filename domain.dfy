/**
 * The shapes exchanged with the remote shop service (the generated
 * interface in backend.d.ts), plus the small wrappers the front end
 * uses around them.
 */
module Domain {

  /** An optional value: TypeScript's `T | undefined` / `T | null`. */
  datatype Option<+T> = None | Some(value: T)

  /** What a remote call settles to: a value, or a rejection with its message. */
  datatype Reply<+T> = Resolved(value: T) | Rejected(message: string)

  /** The six sweet categories, closed on the service side. */
  datatype Category = Other | Candy | Cake | Glucose | Toffee | Chocolate

  /** The caller's role as reported by the service. */
  datatype UserRole = Admin | User | Guest

  /**
   * A caller identity. The identity library is not part of this model: a
   * principal is known only by its textual form (`toString()`) and by
   * whether it is the anonymous principal (`isAnonymous()`).
   */
  datatype Principal = Principal(text: string, isAnonymous: bool)

  /**
   * `isAuthenticated`, as each page computes it from the identity hook:
   * an identity exists and its principal is not anonymous.
   */
  predicate IsAuthenticated(identity: Option<Principal>)
    ensures identity.None? ==> !IsAuthenticated(identity)
    ensures identity.Some? ==> (IsAuthenticated(identity) <==> !identity.value.isAnonymous)
  {
    identity.Some? && !identity.value.isAnonymous
  }

  /** A catalog entry; prices are unbounded integers (`bigint`). */
  datatype Sweet = Sweet(name: string, description: string, category: Category, image: string, price: int)

  /** A hygiene review as stored by the service. */
  datatype Review = Review(reviewText: Option<string>, author: Principal, rating: int)

  /** True when no two catalog entries share a name. */
  predicate UniqueNames(sweets: seq<Sweet>) {
    forall i, j :: 0 <= i < j < |sweets| ==> sweets[i].name != sweets[j].name
  }
}
