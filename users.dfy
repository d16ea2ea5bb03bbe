/** The users collection: PUT /user/:email (an upsert that merges the body's fields),
    PUT /user/admin/:email (promotion to the admin role) and GET /admin/:email. */
module Users {
  import opened Records

  /** A user document: field name to value. The key is the "email" field; "role" carries access. */
  type Doc = map<string, string>

  predicate HasEmail(d: Doc, email: string) {
    "email" in d && d["email"] == email
  }

  /** `role === 'admin'`: a missing role is not admin. */
  predicate IsAdminDoc(d: Doc) {
    "role" in d && d["role"] == "admin"
  }

  /** `findOne({email})` and the filter of `updateOne`: the first user with that email. */
  function FindEmail(users: seq<Doc>, email: string): (r: Option<nat>)
    ensures r.Some? ==> r.value < |users| && HasEmail(users[r.value], email)
    ensures r.Some? ==> forall j :: 0 <= j < r.value ==> !HasEmail(users[j], email)
    ensures r.None? <==> forall j :: 0 <= j < |users| ==> !HasEmail(users[j], email)
  {
    if users == [] then None
    else if HasEmail(users[0], email) then Some(0)
    else match FindEmail(users[1..], email)
      case None => None
      case Some(k) => Some(k + 1)
  }

  /** The counters of the store's update result. */
  datatype UpdateResult = UpdateResult(matchedCount: nat, modifiedCount: nat, upsertedCount: nat)

  /** GET /admin/:email: whether that user's role is admin, or nothing when there is no such user. */
  function AdminStatus(users: seq<Doc>, email: string): (r: Option<bool>)
    ensures r.None? <==> forall j :: 0 <= j < |users| ==> !HasEmail(users[j], email)
    ensures r.Some? ==>
      exists j :: 0 <= j < |users| && HasEmail(users[j], email) &&
        (forall i :: 0 <= i < j ==> !HasEmail(users[i], email)) && r.value == IsAdminDoc(users[j])
  {
    match FindEmail(users, email)
    case None => None
    case Some(k) => Some(IsAdminDoc(users[k]))
  }

  /** `updateOne({email}, {$set: {role: 'admin'}})` without upsert. */
  function Promoted(users: seq<Doc>, email: string): (r: seq<Doc>)
    ensures |r| == |users|
    ensures forall k :: 0 <= k < |users| ==>
      r[k] == users[k] || (HasEmail(users[k], email) && r[k] == users[k]["role" := "admin"])
    ensures (forall k :: 0 <= k < |users| ==> !HasEmail(users[k], email)) ==> r == users
  {
    match FindEmail(users, email)
    case None => users
    case Some(k) => users[k := users[k]["role" := "admin"]]
  }

  /** The result of the promotion: nothing matched, or one matched and modified unless already admin. */
  function PromoteResult(users: seq<Doc>, email: string): (r: UpdateResult)
    ensures r.upsertedCount == 0 && r.matchedCount <= 1 && r.modifiedCount <= r.matchedCount
    ensures r.matchedCount == 1 <==> exists j :: 0 <= j < |users| && HasEmail(users[j], email)
    ensures r.modifiedCount == 1 <==> AdminStatus(users, email) == Some(false)
  {
    match FindEmail(users, email)
    case None => UpdateResult(0, 0, 0)
    case Some(k) => UpdateResult(1, if IsAdminDoc(users[k]) then 0 else 1, 0)
  }

  /** `updateOne({email}, {$set: body}, {upsert: true})`: merge into the first match, or insert
      a document built from the filter and the body. */
  function Upserted(users: seq<Doc>, email: string, body: Doc): (r: seq<Doc>)
    ensures var absent := forall j :: 0 <= j < |users| ==> !HasEmail(users[j], email);
      && |r| == |users| + (if absent then 1 else 0)
      && (absent ==> r[|users|] == map["email" := email] + body)
    ensures forall k :: 0 <= k < |users| ==>
      r[k] == users[k] || (HasEmail(users[k], email) && r[k] == users[k] + body)
  {
    match FindEmail(users, email)
    case None => users + [map["email" := email] + body]
    case Some(k) => users[k := users[k] + body]
  }

  /** The counters of the upsert: an update of the first match, modified unless the body
      changes no field of it, or one insertion. */
  function UpsertResult(users: seq<Doc>, email: string, body: Doc): (r: UpdateResult)
    ensures r.matchedCount + r.upsertedCount == 1 && r.modifiedCount <= r.matchedCount
    ensures r.upsertedCount == 1 <==> forall j :: 0 <= j < |users| ==> !HasEmail(users[j], email)
    ensures r.modifiedCount == 1 <==>
      exists j :: 0 <= j < |users| && HasEmail(users[j], email) &&
        (forall i :: 0 <= i < j ==> !HasEmail(users[i], email)) &&
        exists f :: f in body && (f !in users[j] || users[j][f] != body[f])
  {
    match FindEmail(users, email)
    case None => UpdateResult(0, 0, 1)
    case Some(k) => UpdateResult(1, if users[k] + body == users[k] then 0 else 1, 0)
  }

  /** Changing a document without touching its "email" field leaves every email lookup as it was. */
  lemma FindEmailAfterUpdate(users: seq<Doc>, k: nat, d: Doc, email: string)
    requires k < |users|
    requires ("email" in d <==> "email" in users[k]) && ("email" in d ==> d["email"] == users[k]["email"])
    ensures FindEmail(users[k := d], email) == FindEmail(users, email)
  {
    var after := users[k := d];
    assert forall j :: 0 <= j < |users| ==> (HasEmail(after[j], email) <==> HasEmail(users[j], email));
    var r, r' := FindEmail(users, email), FindEmail(after, email);
    if r.Some? && r'.Some? {
      assert !(r.value < r'.value) && !(r'.value < r.value);
    }
  }

  /** Promoting the same email twice changes nothing more than promoting it once. */
  lemma PromoteIdempotent(users: seq<Doc>, email: string)
    ensures Promoted(Promoted(users, email), email) == Promoted(users, email)
  {
    var r := FindEmail(users, email);
    if r.Some? {
      var k := r.value;
      FindEmailAfterUpdate(users, k, users[k]["role" := "admin"], email);
      assert users[k]["role" := "admin"]["role" := "admin"] == users[k]["role" := "admin"];
    }
  }

  /** The second promotion matches the user but reports nothing modified. */
  lemma PromoteTwiceModifiesNothing(users: seq<Doc>, email: string)
    requires FindEmail(users, email).Some?
    ensures PromoteResult(Promoted(users, email), email) == UpdateResult(1, 0, 0)
  {
    var k := FindEmail(users, email).value;
    FindEmailAfterUpdate(users, k, users[k]["role" := "admin"], email);
  }

  /** Promotion sets role = admin on that user only; every other user and every other
      field of that user stay as they were; an absent email changes nothing. */
  lemma PromoteEffect(users: seq<Doc>, email: string)
    ensures |Promoted(users, email)| == |users|
    ensures FindEmail(users, email).None? ==> Promoted(users, email) == users
    ensures forall j :: 0 <= j < |users| && Some(j) != FindEmail(users, email) ==> Promoted(users, email)[j] == users[j]
    ensures FindEmail(users, email).Some? ==>
      var k := FindEmail(users, email).value;
      var d := Promoted(users, email)[k];
      && IsAdminDoc(d)
      && d.Keys == users[k].Keys + {"role"}
      && forall f :: f in users[k] && f != "role" ==> d[f] == users[k][f]
  {
  }

  /** After promotion, the admin query answers true for that email. */
  lemma PromoteGrantsAdmin(users: seq<Doc>, email: string)
    requires FindEmail(users, email).Some?
    ensures AdminStatus(Promoted(users, email), email) == Some(true)
  {
    var k := FindEmail(users, email).value;
    FindEmailAfterUpdate(users, k, users[k]["role" := "admin"], email);
  }

  /** The upsert overwrites only the fields the body carries and keeps the others;
      with no user for that email it inserts one built from the email and the body. */
  lemma UpsertEffect(users: seq<Doc>, email: string, body: Doc)
    ensures FindEmail(users, email).None? ==>
      Upserted(users, email, body) == users + [map["email" := email] + body]
    ensures FindEmail(users, email).Some? ==>
      var k := FindEmail(users, email).value;
      var d := Upserted(users, email, body)[k];
      && |Upserted(users, email, body)| == |users|
      && (forall j :: 0 <= j < |users| && j != k ==> Upserted(users, email, body)[j] == users[j])
      && d.Keys == users[k].Keys + body.Keys
      && (forall f :: f in body ==> d[f] == body[f])
      && (forall f :: f in users[k] && f !in body ==> d[f] == users[k][f])
  {
  }

  /** Unless the body rewrites the email, the user can be found by that email afterwards
      and holds every field of the body. */
  lemma UpsertThenFound(users: seq<Doc>, email: string, body: Doc)
    requires "email" in body ==> body["email"] == email
    ensures FindEmail(Upserted(users, email, body), email).Some?
    ensures var after := Upserted(users, email, body);
      var d := after[FindEmail(after, email).value];
      forall f :: f in body ==> f in d && d[f] == body[f]
  {
    var after := Upserted(users, email, body);
    match FindEmail(users, email)
    case None =>
      assert HasEmail(after[|users|], email);
      var r := FindEmail(after, email);
      assert r.value == |users|;
    case Some(k) =>
      FindEmailAfterUpdate(users, k, users[k] + body, email);
  }

  /** Repeating the same upsert changes nothing more. */
  lemma UpsertIdempotent(users: seq<Doc>, email: string, body: Doc)
    requires "email" in body ==> body["email"] == email
    ensures Upserted(Upserted(users, email, body), email, body) == Upserted(users, email, body)
  {
    var after := Upserted(users, email, body);
    match FindEmail(users, email)
    case None =>
      var d := map["email" := email] + body;
      assert HasEmail(after[|users|], email);
      var r := FindEmail(after, email);
      assert r.value == |users|;
      assert d + body == d;
    case Some(k) =>
      FindEmailAfterUpdate(users, k, users[k] + body, email);
      assert users[k] + body + body == users[k] + body;
  }

  /** The counters of a repeated upsert: the first inserts when the email is new, the second
      matches the user and modifies nothing. */
  lemma UpsertCounters(users: seq<Doc>, email: string, body: Doc)
    requires "email" in body ==> body["email"] == email
    ensures FindEmail(users, email).None? ==> UpsertResult(users, email, body) == UpdateResult(0, 0, 1)
    ensures UpsertResult(Upserted(users, email, body), email, body) == UpdateResult(1, 0, 0)
  {
    var after := Upserted(users, email, body);
    match FindEmail(users, email)
    case None =>
      assert HasEmail(after[|users|], email);
      var r := FindEmail(after, email);
      assert r.value == |users|;
      assert map["email" := email] + body + body == map["email" := email] + body;
    case Some(k) =>
      FindEmailAfterUpdate(users, k, users[k] + body, email);
      assert users[k] + body + body == users[k] + body;
  }

  /** PUT /user/:email has no guard: a body carrying role = admin makes its email an admin. */
  lemma UpsertCanGrantAdmin(users: seq<Doc>, email: string, body: Doc)
    requires "role" in body && body["role"] == "admin"
    requires "email" in body ==> body["email"] == email
    ensures AdminStatus(Upserted(users, email, body), email) == Some(true)
  {
    UpsertThenFound(users, email, body);
  }

  class UserStore {
    var users: seq<Doc>

    constructor ()
      ensures users == []
    {
      users := [];
    }

    /** PUT /user/:email: upsert, then hand back the result and the claims the new token is signed over. */
    method Upsert(email: string, body: Doc) returns (result: UpdateResult, token: Claims)
      modifies this
      ensures users == Upserted(old(users), email, body)
      ensures result == UpsertResult(old(users), email, body)
      ensures token == Claims(email)
    {
      result := UpsertResult(users, email, body);
      users := Upserted(users, email, body);
      token := Claims(email);
    }

    /** The handler of PUT /user/admin/:email, once both guards have passed. */
    method Promote(email: string) returns (result: UpdateResult)
      modifies this
      ensures users == Promoted(old(users), email)
      ensures result == PromoteResult(old(users), email)
    {
      result := PromoteResult(users, email);
      users := Promoted(users, email);
    }

    /** GET /admin/:email. */
    function IsAdmin(email: string): (r: Option<bool>)
      reads this
      ensures r.Some? ==>
        exists j :: 0 <= j < |users| && HasEmail(users[j], email) &&
          (forall i :: 0 <= i < j ==> !HasEmail(users[i], email)) && r.value == IsAdminDoc(users[j])
      ensures r.None? <==> forall j :: 0 <= j < |users| ==> !HasEmail(users[j], email)
    {
      AdminStatus(users, email)
    }
  }
}
