/**
 * The account and household tables of app/core/models.py as values, the
 * integrity rules the database enforces on them, and the effect of each
 * operation of `UserManager` (and of deleting a household) on those tables.
 * The class in store.dfy performs the same operations in place and is proved
 * to agree with the functions here.
 */
module Models {
  import opened Results
  import Text

  /** Primary keys, as the ORM assigns them. */
  type HouseholdId = nat
  type GroceryId = nat

  /** A household: its unique name and its two many-to-many grocery lists. */
  datatype Household = Household(name: string, groceryList: set<GroceryId>, shoppingList: set<GroceryId>)

  /**
   * A stored password. The hash itself is the credential library's business;
   * all the model relies on is that a hash checks against the text it was made
   * from and against no other. `Unset` is the value before `set_password`.
   */
  datatype Credential = Unset | Hashed(secret: string)

  /** `set_password`: the credential stored for a raw password. */
  function MakePassword(raw: string): (c: Credential)
    ensures c != Unset
    ensures CheckPassword(c, raw)
  {
    Hashed(raw)
  }

  /** `check_password`: whether a raw password matches a stored credential. */
  predicate CheckPassword(credential: Credential, raw: string)
    ensures credential == Unset ==> !CheckPassword(credential, raw)
  {
    credential.Hashed? && credential.secret == raw
  }

  /** A credential checks against the text it was made from and against no other. */
  lemma PasswordChecksOnlyItsOwnText(raw: string, other: string)
    ensures CheckPassword(MakePassword(raw), other) <==> other == raw
  {
  }

  /** A user row; `household` is the nullable foreign key. */
  datatype User = User(
    email: string,
    name: string,
    credential: Credential,
    isActive: bool,
    isStaff: bool,
    isSuperuser: bool,
    household: Option<HouseholdId>)

  /** A grocery row; `household` is the required foreign key. */
  datatype Grocery = Grocery(name: string, quantity: int, household: HouseholdId)

  /**
   * `Grocery.__str__`: the name, then ": ", then the quantity in decimal; the
   * quantity reads back from what follows the separator.
   */
  function GroceryDisplay(g: Grocery): (r: string)
    ensures |r| > |g.name| + 2
    ensures r[..|g.name|] == g.name
    ensures r[|g.name|..|g.name| + 2] == ": "
    ensures Text.ParseInt(r[|g.name| + 2..]) == Some(g.quantity)
  {
    var digits := Text.IntToDecimal(g.quantity);
    Text.IntToDecimalRoundTrip(g.quantity);
    assert (g.name + ": " + digits)[|g.name| + 2..] == digits;
    g.name + ": " + digits
  }

  /**
   * The database: households by primary key plus the unique index on their
   * names, users by their unique e-mail, groceries by primary key, and the next
   * household key the database will hand out.
   */
  datatype Db = Db(
    householdIndex: map<string, HouseholdId>,
    households: map<HouseholdId, Household>,
    users: map<string, User>,
    groceries: map<GroceryId, Grocery>,
    nextHouseholdId: HouseholdId)

  const EmptyDb := Db(map[], map[], map[], map[], 0)

  /** Why `create_user` raises: an empty e-mail, or an e-mail already stored. */
  datatype Error = EmptyEmail | DuplicateEmail

  /** The tables after an operation, and what the operation returned or raised. */
  datatype Step = Step(db: Db, result: Result<User, Error>)

  // ---------------------------------------------------------------------------
  // Integrity rules

  /** The name index and the household rows describe the same households. */
  predicate HouseholdsIndexed(db: Db)
  {
    && (forall n :: n in db.householdIndex ==>
          db.householdIndex[n] in db.households && db.households[db.householdIndex[n]].name == n)
    && (forall id :: id in db.households ==>
          db.households[id].name in db.householdIndex && db.householdIndex[db.households[id].name] == id)
    && (forall id :: id in db.households ==> id < db.nextHouseholdId)
  }

  /** Each user is stored under its own, non-empty, normalised e-mail and refers to a stored household. */
  predicate UsersWellFormed(db: Db)
  {
    forall e :: e in db.users ==>
      && db.users[e].email == e
      && e != ""
      && Text.NormalizeEmail(e) == e
      && (db.users[e].household.Some? ==> db.users[e].household.value in db.households)
  }

  /** Each grocery belongs to a stored household and the lists name stored groceries only. */
  predicate GroceriesWellFormed(db: Db)
  {
    && (forall g :: g in db.groceries ==> db.groceries[g].household in db.households)
    && (forall id :: id in db.households ==>
          db.households[id].groceryList <= db.groceries.Keys && db.households[id].shoppingList <= db.groceries.Keys)
  }

  predicate Valid(db: Db)
  {
    HouseholdsIndexed(db) && UsersWellFormed(db) && GroceriesWellFormed(db)
  }

  /** No two households share a name. */
  predicate UniqueHouseholdNames(db: Db)
  {
    forall a, b :: a in db.households && b in db.households && db.households[a].name == db.households[b].name ==> a == b
  }

  lemma ValidHouseholdNamesUnique(db: Db)
    requires Valid(db)
    ensures UniqueHouseholdNames(db)
  {
    forall a, b | a in db.households && b in db.households && db.households[a].name == db.households[b].name
      ensures a == b
    {
      assert db.householdIndex[db.households[a].name] == a;
    }
  }

  lemma EmptyDbValid()
    ensures Valid(EmptyDb)
  {
  }

  // ---------------------------------------------------------------------------
  // Operations

  /** `Household.objects.get_or_create(name=...)`: the household of that name, created when missing. */
  function GetOrCreateHousehold(db: Db, name: string): (r: (Db, HouseholdId))
    requires Valid(db)
    ensures Valid(r.0)
    ensures r.1 in r.0.households && r.0.households[r.1].name == name
    ensures name in db.householdIndex ==> r == (db, db.householdIndex[name])
    ensures name !in db.householdIndex ==>
      && r.1 !in db.households
      && r.0.households == db.households[r.1 := Household(name, {}, {})]
      && r.0.householdIndex == db.householdIndex[name := r.1]
      && r.0.users == db.users
      && r.0.groceries == db.groceries
  {
    if name in db.householdIndex then (db, db.householdIndex[name])
    else
      var id := db.nextHouseholdId;
      (db.(householdIndex := db.householdIndex[name := id],
           households := db.households[id := Household(name, {}, {})],
           nextHouseholdId := id + 1),
       id)
  }

  /** The password `create_user` sets: the one given, or a generated one when none or an empty one is given. */
  function EffectivePassword(password: Option<string>, generated: string): (raw: string)
    ensures password.Some? && password.value != "" ==> raw == password.value
    ensures password.None? || password.value == "" ==> raw == generated
    ensures generated != "" ==> raw != ""
  {
    if password.None? || password.value == "" then generated else password.value
  }

  /**
   * `create_user`, checking the e-mail's uniqueness before it touches the
   * household table, so that a call that raises changes nothing. `generated`
   * stands for the output of `make_random_password`.
   */
  function CreateUser(db: Db, email: string, password: Option<string>, household: string, name: string, generated: string): (r: Step)
    requires Valid(db)
    ensures Valid(r.db)
    ensures r.result == Failure(EmptyEmail) <==> email == ""
    ensures r.result == Failure(DuplicateEmail) <==> email != "" && Text.NormalizeEmail(email) in db.users
    ensures r.result.Failure? ==> r.db == db
    ensures r.result.Success? ==>
      var u := r.result.value;
      && u.email == Text.NormalizeEmail(email)
      && u.email !in db.users
      && r.db.users == db.users[u.email := u]
      && r.db.groceries == db.groceries
      && u.name == name
      && u.isActive && !u.isStaff && !u.isSuperuser
      && CheckPassword(u.credential, EffectivePassword(password, generated))
      && (password.Some? && password.value != "" ==> CheckPassword(u.credential, password.value))
      && (household == "" ==>
            && u.household.None?
            && r.db.householdIndex == db.householdIndex
            && r.db.households == db.households
            && r.db.nextHouseholdId == db.nextHouseholdId)
      && (household != "" ==>
            var (db1, id) := GetOrCreateHousehold(db, household);
            && u.household == Some(id)
            && r.db.households == db1.households
            && r.db.householdIndex == db1.householdIndex
            && r.db.nextHouseholdId == db1.nextHouseholdId)
      && (household != "" ==>
            u.household.Some? && u.household.value in r.db.households
            && r.db.households[u.household.value].name == household)
      && (household != "" && household in db.householdIndex ==>
            u.household == Some(db.householdIndex[household])
            && r.db.householdIndex == db.householdIndex && r.db.households == db.households)
  {
    if email == "" then Step(db, Failure(EmptyEmail))
    else
      var normalized := Text.NormalizeEmail(email);
      if normalized in db.users then Step(db, Failure(DuplicateEmail))
      else
        Text.NormalizeEmailIdempotent(email);
        var credential := MakePassword(EffectivePassword(password, generated));
        if household == "" then
          var u := User(normalized, name, credential, true, false, false, None);
          Step(db.(users := db.users[normalized := u]), Success(u))
        else
          var (db1, id) := GetOrCreateHousehold(db, household);
          var u := User(normalized, name, credential, true, false, false, Some(id));
          Step(db1.(users := db1.users[normalized := u]), Success(u))
  }

  /** `create_superuser`: `create_user` without a display name, then the staff and superuser flags set. */
  function CreateSuperuser(db: Db, email: string, password: Option<string>, household: string, generated: string): (r: Step)
    requires Valid(db)
    ensures Valid(r.db)
    ensures r.result.Success? ==> r.result.value.isStaff && r.result.value.isSuperuser && r.result.value.isActive
    ensures
      var plain := CreateUser(db, email, password, household, "", generated);
      && (r.result.Failure? <==> plain.result.Failure?)
      && (r.result.Failure? ==> r == plain)
      && (r.result.Success? ==>
            && r.result.value == plain.result.value.(isStaff := true, isSuperuser := true)
            && r.db == plain.db.(users := plain.db.users[r.result.value.email := r.result.value]))
  {
    var plain := CreateUser(db, email, password, household, "", generated);
    match plain.result
    case Failure(_) => plain
    case Success(u) =>
      var admin := u.(isStaff := true, isSuperuser := true);
      Step(plain.db.(users := plain.db.users[admin.email := admin]), Success(admin))
  }

  /**
   * Deleting a household with the declared cascades: its users and its
   * groceries go with it, and the deleted groceries leave every remaining
   * household's lists.
   */
  function DeleteHousehold(db: Db, id: HouseholdId): (r: Db)
    ensures r.households.Keys == db.households.Keys - {id}
    ensures forall h :: h in r.households ==>
      && r.households[h].name == db.households[h].name
      && r.households[h].groceryList == db.households[h].groceryList * r.groceries.Keys
      && r.households[h].shoppingList == db.households[h].shoppingList * r.groceries.Keys
    ensures forall n :: n in r.householdIndex <==> n in db.householdIndex && db.householdIndex[n] != id
    ensures forall e :: e in r.users <==> e in db.users && db.users[e].household != Some(id)
    ensures forall g :: g in r.groceries <==> g in db.groceries && db.groceries[g].household != id
    ensures forall e :: e in r.users ==> r.users[e] == db.users[e]
    ensures forall g :: g in r.groceries ==> r.groceries[g] == db.groceries[g]
    ensures forall n :: n in r.householdIndex ==> r.householdIndex[n] == db.householdIndex[n]
    ensures r.nextHouseholdId == db.nextHouseholdId
  {
    var groceries := map g | g in db.groceries && db.groceries[g].household != id :: db.groceries[g];
    Db(
      map n | n in db.householdIndex && db.householdIndex[n] != id :: db.householdIndex[n],
      map h | h in db.households && h != id ::
        db.households[h].(groceryList := db.households[h].groceryList * groceries.Keys,
                          shoppingList := db.households[h].shoppingList * groceries.Keys),
      map e | e in db.users && db.users[e].household != Some(id) :: db.users[e],
      groceries,
      db.nextHouseholdId)
  }

  /** The cascade leaves no user, grocery or list entry pointing at a deleted row. */
  lemma DeleteHouseholdPreservesValid(db: Db, id: HouseholdId)
    requires Valid(db)
    ensures Valid(DeleteHousehold(db, id))
  {
    var r := DeleteHousehold(db, id);
    assert HouseholdsIndexed(r) by {
      forall h | h in r.households
        ensures r.households[h].name in r.householdIndex && r.householdIndex[r.households[h].name] == h
      {
        assert db.householdIndex[db.households[h].name] == h;
      }
    }
    assert UsersWellFormed(r);
    assert GroceriesWellFormed(r);
  }

  /** Deleting a household that is not stored changes nothing. */
  lemma DeleteMissingHouseholdIsNoop(db: Db, id: HouseholdId)
    requires Valid(db) && id !in db.households
    ensures DeleteHousehold(db, id) == db
  {
    var r := DeleteHousehold(db, id);
    assert r.groceries == db.groceries;
    assert r.users == db.users;
    assert r.householdIndex == db.householdIndex;
    forall h | h in r.households
      ensures r.households[h] == db.households[h]
    {
      assert db.households[h].groceryList * r.groceries.Keys == db.households[h].groceryList;
      assert db.households[h].shoppingList * r.groceries.Keys == db.households[h].shoppingList;
    }
    assert r.households == db.households;
  }

  // ---------------------------------------------------------------------------
  // Properties relating several calls

  /** A second get-or-create of the same name finds the household the first returned and changes nothing. */
  lemma GetOrCreateHouseholdIdempotent(db: Db, name: string)
    requires Valid(db)
    ensures
      var (db1, id1) := GetOrCreateHousehold(db, name);
      GetOrCreateHousehold(db1, name) == (db1, id1)
  {
  }

  /** Two users created with the same household name share one household row. */
  lemma CreateUserSharesHousehold(db: Db, email1: string, email2: string, household: string,
                                  password: Option<string>, generated: string)
    requires Valid(db)
    requires household != ""
    requires CreateUser(db, email1, password, household, "", generated).result.Success?
    ensures
      var first := CreateUser(db, email1, password, household, "", generated);
      var second := CreateUser(first.db, email2, password, household, "", generated);
      second.result.Success? ==>
        && second.result.value.household == first.result.value.household
        && second.db.households == first.db.households
        && second.db.householdIndex == first.db.householdIndex
  {
  }

  // ---------------------------------------------------------------------------
  // Saving the household before the user

  /**
   * `create_user` with its steps in their original order: get_or_create and
   * save the household, then save the user. Saving the user is where a
   * duplicate e-mail raises, so a household created by that call stays.
   */
  function CreateUserAsWritten(db: Db, email: string, password: Option<string>, household: string, name: string, generated: string): (r: Step)
    requires Valid(db)
    ensures Valid(r.db)
    ensures r.result.Failure? <==> email == "" || Text.NormalizeEmail(email) in db.users
  {
    if email == "" then Step(db, Failure(EmptyEmail))
    else
      var normalized := Text.NormalizeEmail(email);
      var credential := MakePassword(EffectivePassword(password, generated));
      var (db1, hh) :=
        if household == "" then (db, None)
        else var (d, id) := GetOrCreateHousehold(db, household); (d, Some(id));
      if normalized in db1.users then Step(db1, Failure(DuplicateEmail))
      else
        Text.NormalizeEmailIdempotent(email);
        var u := User(normalized, name, credential, true, false, false, hh);
        Step(db1.(users := db1.users[normalized := u]), Success(u))
  }

  /** The two orders agree except when a duplicate e-mail comes with a household name not yet stored. */
  lemma AsWrittenDiffersOnlyOnDuplicateWithNewHousehold(db: Db, email: string, password: Option<string>,
                                                        household: string, name: string, generated: string)
    requires Valid(db)
    ensures CreateUserAsWritten(db, email, password, household, name, generated) != CreateUser(db, email, password, household, name, generated)
      <==> email != "" && Text.NormalizeEmail(email) in db.users && household != "" && household !in db.householdIndex
  {
    var written := CreateUserAsWritten(db, email, password, household, name, generated);
    if email != "" && Text.NormalizeEmail(email) in db.users && household != "" && household !in db.householdIndex {
      assert household in written.db.householdIndex;
    }
  }

  /** A concrete call that raises for a duplicate e-mail yet leaves a new household behind. */
  lemma DuplicateEmailLeavesHousehold(email: string)
    requires email == "a@b"
    ensures
      var owner := User(email, "", MakePassword("pw"), true, false, false, None);
      var db := EmptyDb.(users := map[email := owner]);
      && Valid(db)
      && var r := CreateUserAsWritten(db, email, Some("pw"), "Home", "", "generated");
      && r.result == Failure(DuplicateEmail)
      && "Home" in r.db.householdIndex && "Home" !in db.householdIndex
  {
    Text.NormalizeEmailWithoutAt(email[2..]);
    Text.NormalizeEmailSplits(email[..1], email[2..]);
    assert email == email[..1] + "@" + email[2..];
    assert Text.ToLower(email[2..]) == email[2..];
  }
}
