/**
 * The owner page (OwnerCatalogPage.tsx): who gets to see the management
 * view, and the two forms that add a sweet and change a price.
 *
 * `BigInt(...)` parsing of the typed prices is not modelled: each handler
 * receives `parsedPrice`, the value the parse yields, or `None` when it
 * throws.
 */
module OwnerCatalog {
  import opened Domain
  import Queries

  /** What the page renders. */
  datatype View = SignIn | Loading | AccessDenied | OwnerView

  /** `isOwner`: the role query answered `admin`. */
  predicate IsOwner(role: Option<UserRole>)
    ensures IsOwner(role) ==> role.Some? && role.value.Admin?
    ensures role.None? || role == Some(User) || role == Some(Guest) ==> !IsOwner(role)
  {
    role == Some(Admin)
  }

  /**
   * The page's gate, checked in order: a visitor is asked to sign in, the
   * spinner shows while the role loads, anyone but an admin is refused, and
   * an admin gets the management view.
   */
  function ViewFor(identity: Option<Principal>, roleLoading: bool, role: Option<UserRole>): (v: View)
    ensures v == SignIn <==> !IsAuthenticated(identity)
    ensures v == Loading <==> IsAuthenticated(identity) && roleLoading
    ensures v == AccessDenied <==> IsAuthenticated(identity) && !roleLoading && role != Some(Admin)
    ensures v == OwnerView <==> IsAuthenticated(identity) && !roleLoading && role == Some(Admin)
  {
    if !IsAuthenticated(identity) then SignIn
    else if roleLoading then Loading
    else if !IsOwner(role) then AccessDenied
    else OwnerView
  }

  /** The four text inputs of the add form. */
  datatype TextField = NameField | DescriptionField | PriceField | ImageField

  /** The two forms of the management view. */
  datatype Form = AddForm | PriceForm

  /**
   * The forms each view renders: only the owner view holds them, and it
   * holds both; the other views show a prompt, a spinner or a refusal.
   */
  function FormsShown(v: View): (r: set<Form>)
    ensures v == OwnerView ==> r == {AddForm, PriceForm}
    ensures v != OwnerView ==> r == {}
  {
    if v == OwnerView then {AddForm, PriceForm} else {}
  }

  /**
   * The add and price handlers are reachable only through their forms, so
   * a sweet can be added or a price changed only by a signed-in admin
   * whose role has loaded.
   */
  lemma FormsOnlyForOwner(identity: Option<Principal>, roleLoading: bool, role: Option<UserRole>, f: Form)
    ensures f in FormsShown(ViewFor(identity, roleLoading, role)) <==> IsAuthenticated(identity) && !roleLoading && role == Some(Admin)
  {
  }

  /** The add form's fields, with the category already mapped to its variant. */
  datatype NewSweetForm = NewSweetForm(name: string, description: string, category: Category, price: string, image: string)

  /** The price form's fields. */
  datatype PriceUpdateForm = PriceUpdateForm(sweetName: string, newPrice: string)

  /** The add form when the page mounts and after a successful add. */
  const EmptyNewSweet := NewSweetForm("", "", Other, "", "")

  /** The price form when the page mounts and after a successful update. */
  const EmptyPriceUpdate := PriceUpdateForm("", "")

  /** The image sent when none is entered. */
  const PlaceholderImage := "/placeholder-sweet.jpg"

  /** `image || '/placeholder-sweet.jpg'`. */
  function ImageOrPlaceholder(image: string): (r: string)
    ensures r != ""
    ensures image != "" ==> r == image
    ensures image == "" ==> r == PlaceholderImage
  {
    if image == "" then PlaceholderImage else image
  }

  /** What a form handler decides before anything is sent. */
  datatype FormCheck = MissingFields | PriceNotANumber | Ready(m: Queries.Mutation)

  /**
   * `handleAddSweet`'s checks: name, description and price are required;
   * the price must parse; then the sweet is built from the form with the
   * placeholder standing in for a missing image.
   */
  function CheckAdd(form: NewSweetForm, parsedPrice: Option<int>): (c: FormCheck)
    ensures c == MissingFields <==> form.name == "" || form.description == "" || form.price == ""
    ensures c == PriceNotANumber <==> form.name != "" && form.description != "" && form.price != "" && parsedPrice.None?
    ensures c.Ready? ==> c.m.AddSweet?
  {
    if form.name == "" || form.description == "" || form.price == "" then MissingFields
    else if parsedPrice.None? then PriceNotANumber
    else Ready(Queries.AddSweet(Sweet(form.name, form.description, form.category, ImageOrPlaceholder(form.image), parsedPrice.value)))
  }

  /**
   * A sweet the form sends has every text field non-empty, carries the
   * entered name, description, category and parsed price, and carries the
   * entered image or, when none was entered, the placeholder.
   */
  lemma SentSweetIsComplete(form: NewSweetForm, parsedPrice: Option<int>)
    requires CheckAdd(form, parsedPrice).Ready?
    ensures var s := CheckAdd(form, parsedPrice).m.sweet;
            && s.name != "" && s.description != "" && s.image != ""
            && s.name == form.name && s.description == form.description && s.category == form.category
            && parsedPrice == Some(s.price)
            && (form.image != "" ==> s.image == form.image)
            && (form.image == "" ==> s.image == PlaceholderImage)
  {
  }

  /**
   * `handleUpdatePrice`'s checks: a sweet must be selected and a price
   * entered, and the price must parse.
   */
  function CheckUpdate(form: PriceUpdateForm, parsedPrice: Option<int>): (c: FormCheck)
    ensures c == MissingFields <==> form.sweetName == "" || form.newPrice == ""
    ensures c == PriceNotANumber <==> form.sweetName != "" && form.newPrice != "" && parsedPrice.None?
    ensures c.Ready? ==> c.m == Queries.UpdateSweetPrice(form.sweetName, parsedPrice.value) && c.m.name != ""
  {
    if form.sweetName == "" || form.newPrice == "" then MissingFields
    else if parsedPrice.None? then PriceNotANumber
    else Ready(Queries.UpdateSweetPrice(form.sweetName, parsedPrice.value))
  }

  /** How a press of a form's submit button ends. */
  datatype FormOutcome = FieldsError | PriceError | Settled(result: Reply<()>)

  /** The outcome a refused check reports. */
  function Refusal(c: FormCheck): (o: FormOutcome)
    requires !c.Ready?
    ensures o.FieldsError? <==> c.MissingFields?
    ensures o.PriceError? <==> c.PriceNotANumber?
  {
    if c.MissingFields? then FieldsError else PriceError
  }

  /** The two form records the page holds. */
  class OwnerForms {
    var newSweet: NewSweetForm
    var priceUpdate: PriceUpdateForm

    /** Both forms start empty, with `other` preselected. */
    constructor ()
      ensures newSweet == EmptyNewSweet && newSweet.category == Other
      ensures priceUpdate == EmptyPriceUpdate
    {
      newSweet := EmptyNewSweet;
      priceUpdate := EmptyPriceUpdate;
    }

    /**
     * The `onChange` of one text input of the add form: that field takes
     * the typed value, the other fields and the price form are kept.
     */
    method EditNewSweet(field: TextField, value: string)
      modifies this
      ensures field == NameField ==> newSweet == old(newSweet).(name := value)
      ensures field == DescriptionField ==> newSweet == old(newSweet).(description := value)
      ensures field == PriceField ==> newSweet == old(newSweet).(price := value)
      ensures field == ImageField ==> newSweet == old(newSweet).(image := value)
      ensures priceUpdate == old(priceUpdate)
    {
      match field
      case NameField => newSweet := newSweet.(name := value);
      case DescriptionField => newSweet := newSweet.(description := value);
      case PriceField => newSweet := newSweet.(price := value);
      case ImageField => newSweet := newSweet.(image := value);
    }

    /** The category selector of the add form. */
    method ChooseCategory(c: Category)
      modifies this
      ensures newSweet == old(newSweet).(category := c)
      ensures priceUpdate == old(priceUpdate)
    {
      newSweet := newSweet.(category := c);
    }

    /** The sweet selector of the price form. */
    method ChooseSweet(name: string)
      modifies this
      ensures priceUpdate == old(priceUpdate).(sweetName := name)
      ensures newSweet == old(newSweet)
    {
      priceUpdate := priceUpdate.(sweetName := name);
    }

    /** The new-price input of the price form. */
    method EditNewPrice(value: string)
      modifies this
      ensures priceUpdate == old(priceUpdate).(newPrice := value)
      ensures newSweet == old(newSweet)
    {
      priceUpdate := priceUpdate.(newPrice := value);
    }

    /**
     * `handleAddSweet`: refuse an incomplete form or an unparsable price
     * without sending anything; otherwise send the sweet, and reset the
     * add form only when the mutation succeeds. The price form is never
     * touched.
     */
    method AddSweet(cache: Queries.QueryCache, actor: Option<Queries.Remote>, parsedPrice: Option<int>, reply: Reply<()>)
      returns (outcome: FormOutcome)
      requires cache.Valid()
      modifies this, cache
      ensures cache.Valid()
      ensures var c := CheckAdd(old(newSweet), parsedPrice);
              && (!c.Ready? ==> outcome == Refusal(c))
              && (c.Ready? ==> outcome == Settled(Queries.Settle(actor, reply)))
              && (c.Ready? ==> cache.sent == old(cache.sent) + (if actor.Some? then [c.m] else []))
              && (c.Ready? ==> cache.freshness == Queries.AfterMutation(old(cache.freshness), c.m, outcome.result))
              && (!c.Ready? ==> cache.sent == old(cache.sent) && cache.freshness == old(cache.freshness))
      ensures outcome.Settled? && outcome.result.Resolved? ==> newSweet == EmptyNewSweet
      ensures !(outcome.Settled? && outcome.result.Resolved?) ==> newSweet == old(newSweet)
      ensures priceUpdate == old(priceUpdate)
    {
      var c := CheckAdd(newSweet, parsedPrice);
      if !c.Ready? {
        return Refusal(c);
      }
      var result := cache.Run(c.m, actor, reply);
      outcome := Settled(result);
      if result.Resolved? {
        newSweet := EmptyNewSweet;
      }
    }

    /**
     * `handleUpdatePrice`: the same shape for the price form, which is
     * cleared only when the update succeeds. The add form is never touched.
     */
    method UpdatePrice(cache: Queries.QueryCache, actor: Option<Queries.Remote>, parsedPrice: Option<int>, reply: Reply<()>)
      returns (outcome: FormOutcome)
      requires cache.Valid()
      modifies this, cache
      ensures cache.Valid()
      ensures var c := CheckUpdate(old(priceUpdate), parsedPrice);
              && (!c.Ready? ==> outcome == Refusal(c))
              && (c.Ready? ==> outcome == Settled(Queries.Settle(actor, reply)))
              && (c.Ready? ==> cache.sent == old(cache.sent) + (if actor.Some? then [c.m] else []))
              && (c.Ready? ==> cache.freshness == Queries.AfterMutation(old(cache.freshness), c.m, outcome.result))
              && (!c.Ready? ==> cache.sent == old(cache.sent) && cache.freshness == old(cache.freshness))
      ensures outcome.Settled? && outcome.result.Resolved? ==> priceUpdate == EmptyPriceUpdate
      ensures !(outcome.Settled? && outcome.result.Resolved?) ==> priceUpdate == old(priceUpdate)
      ensures newSweet == old(newSweet)
    {
      var c := CheckUpdate(priceUpdate, parsedPrice);
      if !c.Ready? {
        return Refusal(c);
      }
      var result := cache.Run(c.m, actor, reply);
      outcome := Settled(result);
      if result.Resolved? {
        priceUpdate := EmptyPriceUpdate;
      }
    }
  }
}
