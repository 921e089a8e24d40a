/** `getGender` and `getReccomendations`: a user is recommended the users of the
    opposite gender, each decorated with the URL of their first picture. */
module Recommend {
  import opened Values
  import opened Tables

  /** What `getGender` yields: a truthy gender, `undefined` (null or empty gender),
      or an exception when the email has no row (`gender[0]` is undefined). */
  datatype GenderLookup = Gender(value: string) | NoGender | LookupThrew

  function GetGender(users: seq<User>, email: string): (r: GenderLookup)
    ensures r.LookupThrew? <==> email !in Emails(users)
    ensures r.Gender? ==> r.value != "" && users[FirstWithEmail(users, email)].gender == Some(r.value)
    ensures r.NoGender? <==> email in Emails(users) && !Truthy(users[FirstWithEmail(users, email)].gender)
  {
    FirstWithEmailFindsRegistered(users, email);
    var k := FirstWithEmail(users, email);
    if k == |users| then LookupThrew
    else if Truthy(users[k].gender) then Gender(users[k].gender.value)
    else NoGender
  }

  /** The users whose gender column equals `g`, in table order. */
  function WithGender(users: seq<User>, g: string): (r: seq<User>)
    ensures forall u :: multiset(r)[u] == if u.gender == Some(g) then multiset(users)[u] else 0
    ensures forall i :: 0 <= i < |r| ==> r[i] in users && r[i].gender == Some(g)
    ensures forall u :: u in users && u.gender == Some(g) ==> u in r
  {
    if users == [] then []
    else
      var rest := WithGender(users[1..], g);
      assert users == [users[0]] + users[1..];
      var r := if users[0].gender == Some(g) then [users[0]] + rest else rest;
      assert multiset(users) == multiset{users[0]} + multiset(users[1..]);
      assert forall u :: multiset(r)[u] == if u.gender == Some(g) then multiset(users)[u] else 0;
      assert forall u :: u in r <==> multiset(r)[u] > 0;
      assert forall u :: u in users <==> multiset(users)[u] > 0;
      r
  }

  /** Filtering commutes with concatenation, so the rows of gender `g` keep their
      table order: those of an earlier part of the table come first. */
  lemma {:induction false} WithGenderAppend(a: seq<User>, b: seq<User>, g: string)
    ensures WithGender(a + b, g) == WithGender(a, g) + WithGender(b, g)
  {
    if a == [] {
      assert a + b == b;
    } else {
      assert (a + b)[1..] == a[1..] + b;
      WithGenderAppend(a[1..], b, g);
    }
  }

  function PictureEmail(p: Picture): string {
    p.email
  }

  /** The URL of the first picture row for `email`, if any. */
  function FirstPhoto(pictures: seq<Picture>, email: string): (r: Option<string>)
    ensures r.Some? ==> Picture(email, r.value) in pictures
    ensures r.Some? ==> r.value == pictures[FirstWithKey(pictures, PictureEmail, email)].url
    ensures r.None? <==> forall i :: 0 <= i < |pictures| ==> pictures[i].email != email
  {
    var k := FirstWithKey(pictures, PictureEmail, email);
    if k == |pictures| then None
    else
      assert pictures[k] == Picture(email, pictures[k].url);
      Some(pictures[k].url)
  }

  /** A user record with a `photo` field added (`{ ...user, photo: image.url }`). */
  datatype Recommendation = Recommendation(user: User, photo: string)

  /** The `Promise.all(recommendation.map(...))` step: fails as a whole when some
      user has no picture, since reading `image.url` of `undefined` throws. */
  function AttachPhotos(us: seq<User>, pictures: seq<Picture>): (r: Option<seq<Recommendation>>)
    ensures r.Some? <==> forall i :: 0 <= i < |us| ==> FirstPhoto(pictures, us[i].email).Some?
    ensures r.Some? ==> |r.value| == |us|
    ensures r.Some? ==>
      forall i :: 0 <= i < |us| ==> r.value[i] == Recommendation(us[i], FirstPhoto(pictures, us[i].email).value)
  {
    if us == [] then Some([])
    else
      match FirstPhoto(pictures, us[0].email)
      case None => None
      case Some(url) =>
        match AttachPhotos(us[1..], pictures)
        case None =>
          assert forall i :: 1 <= i < |us| ==> us[i] == us[1..][i - 1];
          None
        case Some(rest) =>
          assert forall i :: 1 <= i < |us| ==> us[i] == us[1..][i - 1];
          Some([Recommendation(us[0], url)] + rest)
  }

  /** The gender recommended to a user of gender `g`, if `g` is handled. */
  function OppositeGender(g: string): (r: Option<string>)
    ensures r.Some? <==> g == "male" || g == "female"
    ensures r == Some("female") <==> g == "male"
    ensures r == Some("male") <==> g == "female"
  {
    if g == "male" then Some("female") else if g == "female" then Some("male") else None
  }

  /** What `getReccomendations` resolves to or throws. Both the inner rethrow and a
      failing gender lookup end in the outer `catch`, which throws "Failed to fetch gender". */
  datatype RecResult = Recommendations(recs: seq<Recommendation>) | RecError(error: string) | Thrown(message: string)

  function GetRecommendations(users: seq<User>, pictures: seq<Picture>, email: string): (r: RecResult)
    ensures r.RecError? ==> r.error == "Gender not found" || r.error == "Invalid gender type"
    ensures r.Thrown? ==> r.message == "Failed to fetch gender"
    ensures r.Recommendations? ==> forall i :: 0 <= i < |r.recs| ==> r.recs[i].user in users
  {
    match GetGender(users, email)
    case LookupThrew => Thrown("Failed to fetch gender")
    case NoGender => RecError("Gender not found")
    case Gender(g) =>
      match OppositeGender(g)
      case None => RecError("Invalid gender type")
      case Some(target) =>
        match AttachPhotos(WithGender(users, target), pictures)
        case None => Thrown("Failed to fetch gender")
        case Some(recs) => Recommendations(recs)
  }

  /** For a user of gender "male" or "female": every recommendation is a user row
      of the opposite gender carrying that row's first picture, every user of the
      opposite gender is recommended, and order and length follow the filtered table.
      The call throws exactly when one of those users has no picture. */
  lemma RecommendsOppositeGender(users: seq<User>, pictures: seq<Picture>, email: string, g: string, target: string)
    requires GetGender(users, email) == Gender(g)
    requires (g == "male" && target == "female") || (g == "female" && target == "male")
    ensures GetRecommendations(users, pictures, email).Recommendations?
      <==> forall u :: u in users && u.gender == Some(target) ==> FirstPhoto(pictures, u.email).Some?
    ensures !GetRecommendations(users, pictures, email).Recommendations? ==>
      GetRecommendations(users, pictures, email) == Thrown("Failed to fetch gender")
    ensures GetRecommendations(users, pictures, email).Recommendations? ==>
      var recs := GetRecommendations(users, pictures, email).recs;
      && |recs| == |WithGender(users, target)|
      && (forall i :: 0 <= i < |recs| ==>
            && recs[i].user == WithGender(users, target)[i]
            && recs[i].user in users && recs[i].user.gender == Some(target)
            && FirstPhoto(pictures, recs[i].user.email) == Some(recs[i].photo)
            && Picture(recs[i].user.email, recs[i].photo) in pictures)
      && (forall u :: u in users && u.gender == Some(target) ==> exists i :: 0 <= i < |recs| && recs[i].user == u)
  {
  }

  /** A null or empty gender is "Gender not found"; a gender other than "male" and
      "female" is "Invalid gender type"; a caller without a row makes the call throw. */
  lemma RecommendationErrors(users: seq<User>, pictures: seq<Picture>, email: string)
    ensures email !in Emails(users) ==> GetRecommendations(users, pictures, email) == Thrown("Failed to fetch gender")
    ensures email in Emails(users) && !Truthy(users[FirstWithEmail(users, email)].gender) ==>
      GetRecommendations(users, pictures, email) == RecError("Gender not found")
    ensures (&& email in Emails(users) && Truthy(users[FirstWithEmail(users, email)].gender)
             && users[FirstWithEmail(users, email)].gender.value != "male"
             && users[FirstWithEmail(users, email)].gender.value != "female") ==>
      GetRecommendations(users, pictures, email) == RecError("Invalid gender type")
  {
  }
}
