/**
 * The database as the ORM changes it: one object whose table fields
 * `UserManager`'s methods update row by row. Each method is proved to leave
 * the tables exactly as the matching function of module Models describes.
 */
module Store {
  import opened Results
  import opened Models
  import Text

  class Database {
    var householdIndex: map<string, HouseholdId>
    var households: map<HouseholdId, Household>
    var users: map<string, User>
    var groceries: map<GroceryId, Grocery>
    var nextHouseholdId: HouseholdId

    /** The current contents of the tables. */
    function Rows(): Db
      reads this
    {
      Db(householdIndex, households, users, groceries, nextHouseholdId)
    }

    ghost predicate Valid()
      reads this
    {
      Models.Valid(Rows())
    }

    constructor ()
      ensures Valid() && Rows() == EmptyDb
    {
      householdIndex, households, users, groceries, nextHouseholdId := map[], map[], map[], map[], 0;
      Models.EmptyDbValid();
    }

    /** `Household.objects.get_or_create(name=...)`, returning the household's key. */
    method GetOrCreateHousehold(name: string) returns (id: HouseholdId)
      requires Valid()
      modifies this
      ensures Valid()
      ensures (Rows(), id) == Models.GetOrCreateHousehold(old(Rows()), name)
    {
      if name in householdIndex {
        id := householdIndex[name];
        return;
      }
      id := nextHouseholdId;
      households := households[id := Household(name, {}, {})];
      householdIndex := householdIndex[name := id];
      nextHouseholdId := id + 1;
    }

    /**
     * `UserManager.create_user`: builds the user row step by step and saves it.
     * The e-mail's uniqueness is checked before the household table is touched.
     */
    method CreateUser(email: string, password: Option<string>, household: string, name: string, generated: string)
      returns (r: Result<User, Error>)
      requires Valid()
      modifies this
      ensures Valid()
      ensures Step(Rows(), r) == Models.CreateUser(old(Rows()), email, password, household, name, generated)
    {
      ghost var before := Rows();
      if email == "" {
        return Failure(EmptyEmail);
      }
      var user := User(Text.NormalizeEmail(email), name, Unset, true, false, false, None);
      if user.email in users {
        return Failure(DuplicateEmail);
      }
      var raw := if password.None? then "" else password.value;
      if raw == "" {
        raw := generated;
      }
      user := user.(credential := MakePassword(raw));
      assert raw == EffectivePassword(password, generated);
      if household != "" {
        var hh := GetOrCreateHousehold(household);
        user := user.(household := Some(hh));
      }
      users := users[user.email := user];
      r := Success(user);
      assert Step(Rows(), r) == Models.CreateUser(before, email, password, household, name, generated);
    }

    /** `UserManager.create_superuser`: `create_user`, then the staff and superuser flags, saved again. */
    method CreateSuperuser(email: string, password: Option<string>, household: string, generated: string)
      returns (r: Result<User, Error>)
      requires Valid()
      modifies this
      ensures Valid()
      ensures Step(Rows(), r) == Models.CreateSuperuser(old(Rows()), email, password, household, generated)
    {
      ghost var before := Rows();
      r := CreateUser(email, password, household, "", generated);
      ghost var plain := Models.CreateUser(before, email, password, household, "", generated);
      assert Step(Rows(), r) == plain;
      if r.Success? {
        var user := r.value;
        user := user.(isStaff := true);
        user := user.(isSuperuser := true);
        users := users[user.email := user];
        r := Success(user);
        assert user == plain.result.value.(isStaff := true, isSuperuser := true);
      }
      assert Step(Rows(), r) == Models.CreateSuperuser(before, email, password, household, generated);
    }

    /** Deletes a household together with everything its cascades reach. */
    method DeleteHousehold(id: HouseholdId)
      requires Valid()
      modifies this
      ensures Valid()
      ensures Rows() == Models.DeleteHousehold(old(Rows()), id)
    {
      Models.DeleteHouseholdPreservesValid(Rows(), id);
      groceries := map g | g in groceries && groceries[g].household != id :: groceries[g];
      var kept := groceries.Keys;
      households := map h | h in households && h != id ::
        households[h].(groceryList := households[h].groceryList * kept,
                       shoppingList := households[h].shoppingList * kept);
      householdIndex := map n | n in householdIndex && householdIndex[n] != id :: householdIndex[n];
      users := map e | e in users && users[e].household != Some(id) :: users[e];
    }
  }
}
