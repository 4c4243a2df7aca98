/** The User schema (`models/User.js`): its fields, the setters and defaults
    Mongoose applies on write, the validators, the two unique indexes, and
    the `toJSON` transform; and the collection itself, with the three writes
    the user handlers make. */
module UserModel {
  import opened Js
  import opened Db

  /** A stored user document. `createdAt`, `updatedAt` and `__v` are not modelled. */
  datatype User = User(
    id: ObjectId,
    firstName: string,
    lastName: string,
    email: string,
    userName: string,
    password: string,
    isAdmin: bool,
    mobileNo: string)

  /** What `toJSON` (and `select("-password -__v")`) leaves of a document. */
  datatype PublicUser = PublicUser(
    id: ObjectId,
    firstName: string,
    lastName: string,
    email: string,
    userName: string,
    isAdmin: bool,
    mobileNo: string)

  /** The `toJSON` transform: the password is removed, every other field is kept. */
  function ToJson(u: User): (p: PublicUser)
    ensures p.id == u.id && p.email == u.email && p.userName == u.userName && p.isAdmin == u.isAdmin
    ensures p.firstName == u.firstName && p.lastName == u.lastName && p.mobileNo == u.mobileNo
  {
    PublicUser(u.id, u.firstName, u.lastName, u.email, u.userName, u.isAdmin, u.mobileNo)
  }

  /** Two documents look the same through `toJSON` exactly when they differ
      in nothing but the password. */
  lemma ToJsonHidesOnlyPassword(u: User, v: User)
    ensures ToJson(u) == ToJson(v) <==> u.(password := v.password) == v
  {
  }

  /** The fields handed to `User.create`; `isAdmin` may be left out. */
  datatype UserInput = UserInput(
    firstName: string,
    lastName: string,
    email: string,
    userName: string,
    password: string,
    isAdmin: Option<bool>,
    mobileNo: string)

  /** The email and userName setters: `trim` then `lowercase`. */
  function NormalizeKey(s: string): (r: string)
    ensures IsLower(r) && Trimmed(r)
    ensures r == "" <==> Blank(s)
    ensures '@' in r <==> '@' in s
  {
    var t := Trim(s);
    LowerFacts(t);
    TrimKeepsAt(s);
    TrimEmpty(s);
    Lower(t)
  }

  /** Every schema constraint on a document except the password's. */
  predicate FieldsConform(u: User) {
    && u.firstName != "" && Trimmed(u.firstName)
    && u.lastName != "" && Trimmed(u.lastName)
    && u.email != "" && Trimmed(u.email) && IsLower(u.email)
    && u.userName != "" && Trimmed(u.userName) && IsLower(u.userName)
    && u.mobileNo != "" && Trimmed(u.mobileNo)
  }

  /** The schema's validators pass: every required field is present. */
  predicate Conforms(u: User) {
    FieldsConform(u) && u.password != ""
  }

  /** The document `User.create(input)` builds before validating it: the
      `trim`/`lowercase` setters applied, `isAdmin` defaulting to false.
      It passes validation exactly when no required field is blank. */
  function ApplySchema(input: UserInput, id: ObjectId): (u: User)
    ensures u.id == id && u.password == input.password
    ensures u.isAdmin <==> input.isAdmin == Some(true)
    ensures IsLower(u.email) && Trimmed(u.email) && IsLower(u.userName) && Trimmed(u.userName)
    ensures Trimmed(u.firstName) && Trimmed(u.lastName) && Trimmed(u.mobileNo)
    ensures Conforms(u) <==>
      && !Blank(input.firstName) && !Blank(input.lastName) && !Blank(input.email)
      && !Blank(input.userName) && !Blank(input.mobileNo) && input.password != ""
  {
    TrimEmpty(input.firstName);
    TrimEmpty(input.lastName);
    TrimEmpty(input.mobileNo);
    User(id, Trim(input.firstName), Trim(input.lastName), NormalizeKey(input.email),
         NormalizeKey(input.userName), input.password,
         match input.isAdmin case Some(b) => b case None => false,
         Trim(input.mobileNo))
  }

  /** The unique indexes: no two documents share an id, an email or a userName
      (compared case-insensitively). */
  predicate DistinctKeys(a: User, b: User) {
    a.id != b.id && a.email != b.email && !SameIgnoringCase(a.userName, b.userName)
  }

  /** The invariant of the collection. */
  predicate WellFormed(users: seq<User>) {
    && (forall i :: 0 <= i < |users| ==> FieldsConform(users[i]))
    && (forall i, j :: 0 <= i < j < |users| ==> DistinctKeys(users[i], users[j]))
  }

  /** What the unique indexes compare: the stored values, byte for byte. */
  predicate SharesIndexedKey(a: User, b: User) {
    a.id == b.id || a.email == b.email || a.userName == b.userName
  }

  /** Inserting `u` would violate a unique index. */
  predicate Collides(users: seq<User>, u: User) {
    exists i :: 0 <= i < |users| && SharesIndexedKey(users[i], u)
  }

  /** Writing `u` over the document at `k` would violate a unique index. */
  predicate CollidesExcept(users: seq<User>, k: nat, u: User) {
    exists i :: 0 <= i < |users| && i != k && SharesIndexedKey(users[i], u)
  }

  /** The binary unique index on the lower-cased userName enforces
      case-insensitive uniqueness: an insert the indexes accept keeps the
      collection well formed. */
  lemma InsertKeepsWellFormed(users: seq<User>, u: User)
    requires WellFormed(users) && FieldsConform(u) && !Collides(users, u)
    ensures WellFormed(users + [u])
  {
    var s := users + [u];
    forall i, j | 0 <= i < j < |s| ensures DistinctKeys(s[i], s[j]) {
      if j == |users| {
        assert !SharesIndexedKey(users[i], u);
        SameIgnoringCaseOnLower(users[i].userName, u.userName);
      }
    }
  }

  /** Overwriting a document with one that keeps its id and userName, passes
      the validators and the unique indexes keeps the collection well formed. */
  lemma ReplaceKeepsWellFormed(users: seq<User>, k: nat, u: User)
    requires WellFormed(users) && k < |users| && FieldsConform(u)
    requires u.id == users[k].id && u.userName == users[k].userName
    requires !CollidesExcept(users, k, u)
    ensures WellFormed(users[k := u])
  {
    var s := users[k := u];
    forall i, j | 0 <= i < j < |s| ensures DistinctKeys(s[i], s[j]) {
      if i == k {
        assert !SharesIndexedKey(users[j], u);
        assert DistinctKeys(users[k], users[j]);
      } else if j == k {
        assert !SharesIndexedKey(users[i], u);
        assert DistinctKeys(users[i], users[k]);
      }
    }
  }

  /** A write that keeps a document's id, email and userName cannot clash
      with any other document. */
  lemma SameKeysNoCollision(users: seq<User>, k: nat, u: User)
    requires WellFormed(users) && k < |users|
    requires u.id == users[k].id && u.email == users[k].email && u.userName == users[k].userName
    ensures !CollidesExcept(users, k, u)
  {
    forall i | 0 <= i < |users| && i != k ensures !SharesIndexedKey(users[i], u) {
      assert i < k ==> DistinctKeys(users[i], users[k]);
      assert i > k ==> DistinctKeys(users[k], users[i]);
    }
  }

  /** A `$set` on a user: the fields it names, each optional. */
  datatype Update = Update(
    firstName: Option<string>,
    lastName: Option<string>,
    mobileNo: Option<string>,
    email: Option<string>,
    isAdmin: Option<bool>)
  {
    /** `Object.keys(update).length === 0` */
    predicate IsEmpty() {
      firstName.None? && lastName.None? && mobileNo.None? && email.None? && isAdmin.None?
    }
  }

  const NoUpdate := Update(None, None, None, None, None)

  function SetText(current: string, v: Option<string>): string {
    match v case Some(s) => Trim(s) case None => current
  }

  /** The document after the `$set`, with the schema's setters applied to
      the values it carries. The id, userName and password are untouched. */
  function ApplyUpdate(u: User, p: Update): (r: User)
    ensures r.id == u.id && r.userName == u.userName && r.password == u.password
    ensures p.IsEmpty() ==> r == u
  {
    u.(firstName := SetText(u.firstName, p.firstName),
       lastName := SetText(u.lastName, p.lastName),
       mobileNo := SetText(u.mobileNo, p.mobileNo),
       email := match p.email case Some(e) => NormalizeKey(e) case None => u.email,
       isAdmin := match p.isAdmin case Some(b) => b case None => u.isAdmin)
  }

  /** The update validators (`runValidators: true`): every required path the
      `$set` names must not end up empty. */
  predicate UpdateValidates(p: Update) {
    && (p.firstName.Some? ==> !Blank(p.firstName.value))
    && (p.lastName.Some? ==> !Blank(p.lastName.value))
    && (p.mobileNo.Some? ==> !Blank(p.mobileNo.value))
    && (p.email.Some? ==> !Blank(p.email.value))
  }

  /** An update that passes the validators keeps a conforming document conforming. */
  lemma ValidatedUpdateConforms(u: User, p: Update)
    requires FieldsConform(u) && UpdateValidates(p)
    ensures FieldsConform(ApplyUpdate(u, p))
  {
  }

  function IdMatches(id: ObjectId): User -> bool {
    (u: User) => u.id == id
  }

  /** The user collection. */
  class UserStore {
    var users: seq<User>

    ghost predicate Valid()
      reads this
    {
      WellFormed(users)
    }

    constructor ()
      ensures Valid() && users == []
    {
      users := [];
    }

    /** `User.create(input)`: setters and defaults, then the validators, then
        an insert the unique indexes on `_id`, `email` and `userName` make atomic. */
    method Create(input: UserInput, id: ObjectId) returns (res: Outcome<User>)
      requires Valid()
      modifies this
      ensures Valid()
      ensures var u := ApplySchema(input, id);
        && (!Conforms(u) ==> res == Threw(ValidationError("User validation")) && users == old(users))
        && (Conforms(u) && Collides(old(users), u) ==> res == Threw(DuplicateKey) && users == old(users))
        && (Conforms(u) && !Collides(old(users), u) ==> res == Done(u) && users == old(users) + [u])
    {
      var u := ApplySchema(input, id);
      if !Conforms(u) {
        return Threw(ValidationError("User validation"));
      }
      if Collides(users, u) {
        return Threw(DuplicateKey);
      }
      InsertKeepsWellFormed(users, u);
      users := users + [u];
      res := Done(u);
    }

    /** `findByIdAndUpdate(id, { $set: update }, { new: true, runValidators: true })`:
        the id is cast, the update validated, then the document (if any) is
        rewritten unless that would break a unique index. */
    method FindByIdAndUpdate(idv: Value, p: Update) returns (res: Outcome<Option<User>>)
      requires Valid()
      modifies this
      ensures Valid()
      ensures CastObjectId(idv).None? ==> res == Threw(CastError) && users == old(users)
      ensures CastObjectId(idv).Some? && !UpdateValidates(p) ==>
        res == Threw(ValidationError("Validation")) && users == old(users)
      ensures CastObjectId(idv).Some? && UpdateValidates(p) ==>
        var k := FindFirst(old(users), IdMatches(CastObjectId(idv).value));
        && (k.None? ==> res == Done(None) && users == old(users))
        && (k.Some? ==>
             var u := ApplyUpdate(old(users)[k.value], p);
             && (CollidesExcept(old(users), k.value, u) ==> res == Threw(DuplicateKey) && users == old(users))
             && (!CollidesExcept(old(users), k.value, u) ==>
                  res == Done(Some(u)) && users == old(users)[k.value := u]))
    {
      var id := CastObjectId(idv);
      if id.None? {
        return Threw(CastError);
      }
      if !UpdateValidates(p) {
        return Threw(ValidationError("Validation"));
      }
      var k := FindFirst(users, IdMatches(id.value));
      if k.None? {
        return Done(None);
      }
      var u := ApplyUpdate(users[k.value], p);
      if CollidesExcept(users, k.value, u) {
        return Threw(DuplicateKey);
      }
      ValidatedUpdateConforms(users[k.value], p);
      ReplaceKeepsWellFormed(users, k.value, u);
      users := users[k.value := u];
      res := Done(Some(u));
    }

    /** `findByIdAndUpdate(id, { $set: { password } })`, without validators:
        only the password of the document with that id changes, if there is one. */
    method SetPassword(idv: Value, password: string) returns (res: Outcome<Option<User>>)
      requires Valid()
      modifies this
      ensures Valid()
      ensures CastObjectId(idv).None? ==> res == Threw(CastError) && users == old(users)
      ensures CastObjectId(idv).Some? ==>
        var k := FindFirst(old(users), IdMatches(CastObjectId(idv).value));
        && (k.None? ==> res == Done(None) && users == old(users))
        && (k.Some? ==>
             var u := old(users)[k.value].(password := password);
             res == Done(Some(u)) && users == old(users)[k.value := u])
    {
      var id := CastObjectId(idv);
      if id.None? {
        return Threw(CastError);
      }
      var k := FindFirst(users, IdMatches(id.value));
      if k.None? {
        return Done(None);
      }
      var u := users[k.value].(password := password);
      SameKeysNoCollision(users, k.value, u);
      ReplaceKeepsWellFormed(users, k.value, u);
      users := users[k.value := u];
      res := Done(Some(u));
    }
  }
}
