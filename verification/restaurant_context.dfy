/** The client restaurant reducer: the restaurant's own dish list, where a
    dish is added under a fresh id or edited in place, and its profile. */
module RestaurantContext {
  import opened Wrappers

  datatype DishInfo = DishInfo(
    dishName: string,
    ingredients: string,
    price: real,
    description: string,
    category: string,
    imageUrl: Option<string>)

  datatype Dish = Dish(id: int, info: DishInfo)

  /** A dish as submitted by the form: a new dish has no id (or id 0). */
  datatype DishForm = DishForm(id: Option<int>, info: DishInfo)

  datatype Profile = Profile(
    name: string,
    location: string,
    description: string,
    contactInfo: string,
    timings: string,
    imageUrl: Option<string>)

  /** The two dishes the list starts with. */
  const InitialDishes: seq<Dish> := [
    Dish(1, DishInfo("Margherita Pizza", "Tomato, Mozzarella, Basil", 9.99,
                     "Classic pizza with fresh ingredients", "Main Course", None)),
    Dish(2, DishInfo("Caesar Salad", "Romaine, Croutons, Caesar Dressing", 6.99,
                     "Fresh salad with homemade dressing", "Salad", None))
  ]

  /** JavaScript truthiness of the submitted id: present and non-zero. */
  predicate HasId(form: DishForm) {
    form.id.Some? && form.id.value != 0
  }

  /** Strictly increasing ids, so in particular no two dishes share one. */
  predicate Ascending(dishes: seq<Dish>) {
    forall i, j :: 0 <= i < j < |dishes| ==> dishes[i].id < dishes[j].id
  }

  /** The id given to a new dish: one past the last dish's, or 1. */
  function NextId(dishes: seq<Dish>): (r: int)
    ensures |dishes| > 0 ==> r == dishes[|dishes| - 1].id + 1
    ensures |dishes| == 0 ==> r == 1
    ensures Ascending(dishes) ==> forall k :: 0 <= k < |dishes| ==> dishes[k].id < r
  {
    if |dishes| > 0 then dishes[|dishes| - 1].id + 1 else 1
  }

  /** Replaces every dish whose id equals `id` by `replacement`. */
  function EditDish(dishes: seq<Dish>, id: int, replacement: Dish): (r: seq<Dish>)
    ensures |r| == |dishes|
    ensures forall k :: 0 <= k < |dishes| ==>
      r[k] == if dishes[k].id == id then replacement else dishes[k]
  {
    if |dishes| == 0 then []
    else [if dishes[0].id == id then replacement else dishes[0]] + EditDish(dishes[1..], id, replacement)
  }

  /** A form with an id edits the dishes carrying that id and leaves the rest
      (and an unknown id leaves the whole list) as it was; a form without one
      appends a new dish under the next id. Either way ascending ids stay
      ascending. */
  function AddOrEditDish(dishes: seq<Dish>, form: DishForm): (r: seq<Dish>)
    ensures HasId(form) ==> |r| == |dishes|
    ensures HasId(form) ==> forall k :: 0 <= k < |dishes| ==>
      r[k] == if dishes[k].id == form.id.value then Dish(form.id.value, form.info) else dishes[k]
    ensures HasId(form) && (forall k :: 0 <= k < |dishes| ==> dishes[k].id != form.id.value) ==> r == dishes
    ensures !HasId(form) ==>
      && |r| == |dishes| + 1
      && r[..|dishes|] == dishes
      && r[|dishes|] == Dish(NextId(dishes), form.info)
      && (|dishes| == 0 ==> r[|dishes|].id == 1)
      && (|dishes| > 0 ==> r[|dishes|].id == dishes[|dishes| - 1].id + 1)
      && (Ascending(dishes) ==> forall k :: 0 <= k < |dishes| ==> dishes[k].id < r[|dishes|].id)
    ensures Ascending(dishes) ==> Ascending(r)
  {
    if HasId(form) then
      var r := EditDish(dishes, form.id.value, Dish(form.id.value, form.info));
      assert (forall k :: 0 <= k < |dishes| ==> dishes[k].id != form.id.value) ==> r == dishes;
      r
    else dishes + [Dish(NextId(dishes), form.info)]
  }

  /** The list after a sequence of submissions, starting from `dishes`. */
  function SubmitAll(dishes: seq<Dish>, forms: seq<DishForm>): seq<Dish>
    decreases |forms|
  {
    if |forms| == 0 then dishes else SubmitAll(AddOrEditDish(dishes, forms[0]), forms[1..])
  }

  /** Whatever the restaurant submits, dish ids stay strictly increasing and
      therefore unique, so an edit never touches more than one dish. */
  lemma {:induction false} SubmitAllKeepsIdsUnique(forms: seq<DishForm>)
    ensures Ascending(SubmitAll(InitialDishes, forms))
  {
    AscendingPreserved(InitialDishes, forms);
  }

  lemma {:induction false} AscendingPreserved(dishes: seq<Dish>, forms: seq<DishForm>)
    requires Ascending(dishes)
    ensures Ascending(SubmitAll(dishes, forms))
    decreases |forms|
  {
    if |forms| > 0 {
      AscendingPreserved(AddOrEditDish(dishes, forms[0]), forms[1..]);
    }
  }

  /** The profile the page starts with. */
  const InitialProfile := Profile("My Restaurant", "123 Main St", "Delicious food served fresh!",
                                  "987-1234", "08 AM - 10 PM", None)

  /** The profile after an update: the submitted profile as a whole. */
  function UpdateProfile(current: Profile, newProfile: Profile): Profile {
    newProfile
  }

  /** No field of the profile being replaced survives an update: the result
      is the same whatever the profile was before. */
  lemma UpdateProfileForgetsCurrent(c1: Profile, c2: Profile, newProfile: Profile)
    ensures UpdateProfile(c1, newProfile) == UpdateProfile(c2, newProfile)
    ensures UpdateProfile(c1, newProfile).name == newProfile.name
    ensures UpdateProfile(c1, newProfile).imageUrl == newProfile.imageUrl
  {
  }

  /** Of two updates in a row only the later one counts, and submitting the
      profile already shown changes nothing. */
  lemma LastProfileWins(current: Profile, first: Profile, second: Profile)
    ensures UpdateProfile(UpdateProfile(current, first), second) == UpdateProfile(current, second)
    ensures UpdateProfile(current, current) == current
  {
  }
}
