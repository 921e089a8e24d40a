/** The database tables the handlers read and write (users, pictures, likes) and
    the handlers of the server that work on them: `/check-email`, `/api/checkPlan`,
    `/api/updateUserPlan`, `/api/add-like` and `/api/mutual-likes`. */
module Tables {
  import opened Values

  /** A row of the users table, with the columns the modelled handlers use. */
  datatype User = User(
    email: string,
    name: Option<string>,
    gender: Option<string>,
    subscription: Option<string>,
    instaId: Option<string>,
    phone: Option<string>)

  /** A row of the pictures table. */
  datatype Picture = Picture(email: string, url: string)

  /** The row `/check-email` inserts for an unknown email: only the email is set. */
  function NewUser(email: string): User {
    User(email, None, None, None, None, None)
  }

  /** Position of the first row whose key is `k` (`[0]` of a `where(eq(column, k))`
      query), or `|rows|` when there is none. */
  function FirstWithKey<T>(rows: seq<T>, key: T -> string, k: string): (i: nat)
    ensures i <= |rows|
    ensures i < |rows| ==> key(rows[i]) == k
    ensures forall j :: 0 <= j < i ==> key(rows[j]) != k
  {
    if rows == [] then 0
    else if key(rows[0]) == k then 0
    else 1 + FirstWithKey(rows[1..], key, k)
  }

  function UserEmail(u: User): string {
    u.email
  }

  /** Position of the first users row for `email`, or `|users|` when there is none. */
  function FirstWithEmail(users: seq<User>, email: string): (k: nat)
    ensures k <= |users|
    ensures k < |users| ==> users[k].email == email
    ensures forall j :: 0 <= j < k ==> users[j].email != email
  {
    FirstWithKey(users, UserEmail, email)
  }

  /** The emails present in the users table. */
  function Emails(users: seq<User>): set<string> {
    set u | u in users :: u.email
  }

  lemma {:induction false} FirstWithEmailFindsRegistered(users: seq<User>, email: string)
    ensures FirstWithEmail(users, email) < |users| <==> email in Emails(users)
  {
  }

  // ---------------------------------------------------------------- plans

  /** `togglePlan`: "basic" becomes "premium"; anything else, an absent plan
      included, becomes "basic". */
  function TogglePlan(plan: Option<string>): (r: string)
    ensures r == "basic" || r == "premium"
    ensures r != "basic" ==> plan == Some("basic")
  {
    if plan == Some("basic") then "premium" else "basic"
  }

  /** What `/api/checkPlan` does: answer `{ hasBasicPlan }`, or, when the caller has
      no row, fail on `user[0].subscription` and rethrow without answering. */
  datatype PlanReply = HasBasicPlan(basic: bool) | Unanswered

  function CheckPlan(users: seq<User>, email: string): (r: PlanReply)
    ensures r.Unanswered? <==> email !in Emails(users)
  {
    FirstWithEmailFindsRegistered(users, email);
    var k := FirstWithEmail(users, email);
    if k == |users| then Unanswered
    else HasBasicPlan(users[k].subscription == Some("basic"))
  }

  /** The `update(users).set({ subscription }).where(eq(users.email, email))` write. */
  function SetSubscription(users: seq<User>, email: string, plan: string): (r: seq<User>)
    ensures |r| == |users|
    ensures forall i :: 0 <= i < |r| ==> r[i].email == users[i].email
    ensures forall i :: 0 <= i < |r| && users[i].email != email ==> r[i] == users[i]
    ensures forall i :: 0 <= i < |r| && users[i].email == email ==> r[i].subscription == Some(plan)
    ensures forall i :: 0 <= i < |r| ==> r[i].(subscription := users[i].subscription) == users[i]
  {
    seq(|users|, i requires 0 <= i < |users| =>
      if users[i].email == email then users[i].(subscription := Some(plan)) else users[i])
  }

  /** The toggle always yields one of the two plans and swaps them. */
  lemma TogglePlanSwaps(plan: Option<string>)
    ensures TogglePlan(plan) == "premium" || TogglePlan(plan) == "basic"
    ensures TogglePlan(plan) == "premium" <==> plan == Some("basic")
    ensures plan == Some("basic") || plan == Some("premium") ==> Some(TogglePlan(Some(TogglePlan(plan)))) == plan
  {
  }

  /** `checkPlan` answers `hasBasicPlan` exactly when the caller's first row
      has subscription "basic", and answers nothing when there is no row. */
  lemma CheckPlanAnswers(users: seq<User>, email: string)
    ensures CheckPlan(users, email).Unanswered? <==> email !in Emails(users)
    ensures CheckPlan(users, email).HasBasicPlan? ==>
      (CheckPlan(users, email).basic <==>
        exists k :: 0 <= k < |users| && users[k].email == email && users[k].subscription == Some("basic")
          && forall j :: 0 <= j < k ==> users[j].email != email)
  {
  }

  lemma FirstWithEmailIgnoresSubscription(users: seq<User>, email: string, plan: string)
    ensures FirstWithEmail(SetSubscription(users, email, plan), email) == FirstWithEmail(users, email)
  {
  }

  /** After `/api/updateUserPlan` with `plan`, `/api/checkPlan` for the same user
      reports a basic plan exactly when `plan` was not "basic". */
  lemma UpdateThenCheckPlan(users: seq<User>, email: string, plan: Option<string>)
    requires email in Emails(users)
    ensures CheckPlan(SetSubscription(users, email, TogglePlan(plan)), email) == HasBasicPlan(plan != Some("basic"))
  {
    FirstWithEmailFindsRegistered(users, email);
    FirstWithEmailIgnoresSubscription(users, email, TogglePlan(plan));
  }

  // ---------------------------------------------------------------- likes

  /** The users `me` likes who also like `me`: the `where` of `/api/mutual-likes`. */
  function MutualLikes(likes: set<(string, string)>, me: string): (r: set<string>)
    ensures forall u :: u in r ==> (me, u) in likes && (u, me) in likes
  {
    set p | p in likes && p.0 == me && (p.1, me) in likes :: p.1
  }

  lemma MutualLikesMeans(likes: set<(string, string)>, me: string, u: string)
    ensures u in MutualLikes(likes, me) <==> (me, u) in likes && (u, me) in likes
  {
  }

  /** Mutuality is symmetric. */
  lemma MutualLikesSymmetric(likes: set<(string, string)>, a: string, b: string)
    ensures b in MutualLikes(likes, a) <==> a in MutualLikes(likes, b)
  {
  }

  /** Adding the like (a, b) makes b a mutual like of a exactly when b likes a,
      and changes nothing else about a's mutual likes. */
  lemma AddLikeExtendsMutual(likes: set<(string, string)>, a: string, b: string)
    ensures MutualLikes(likes + {(a, b)}, a)
      == MutualLikes(likes, a) + (if (b, a) in likes + {(a, b)} then {b} else {})
  {
  }

  /** One group of the mutual-likes join: a liked user's row joined with one of
      that user's pictures, grouped by name, instaId, phone, url and email. */
  datatype MutualGroup = MutualGroup(email: string, userName: Option<string>, instaId: Option<string>, phone: Option<string>, photoUrl: string)

  function MutualGroups(likes: set<(string, string)>, users: seq<User>, pictures: seq<Picture>, me: string): (r: set<MutualGroup>)
    ensures forall g :: g in r ==> g.email in MutualLikes(likes, me) && Picture(g.email, g.photoUrl) in pictures
  {
    set u, p | u in users && p in pictures && u.email in MutualLikes(likes, me) && p.email == u.email
      :: MutualGroup(u.email, u.name, u.instaId, u.phone, p.url)
  }

  /** Every group is a mutual like of `me` with a user row and a picture, and every
      such (row, picture) pair appears. */
  lemma MutualGroupsExact(likes: set<(string, string)>, users: seq<User>, pictures: seq<Picture>, me: string)
    ensures forall g :: g in MutualGroups(likes, users, pictures, me) ==>
      && (me, g.email) in likes && (g.email, me) in likes && Picture(g.email, g.photoUrl) in pictures
      && exists u :: u in users && u.email == g.email && u.name == g.userName && u.instaId == g.instaId && u.phone == g.phone
    ensures forall u, p :: u in users && p in pictures && p.email == u.email && (me, u.email) in likes && (u.email, me) in likes ==>
      MutualGroup(u.email, u.name, u.instaId, u.phone, p.url) in MutualGroups(likes, users, pictures, me)
  {
  }

  /** Inserting a pair into the likes set grows it by one exactly when the pair was absent. */
  lemma InsertIfAbsentSize(likes: set<(string, string)>, pair: (string, string))
    ensures |likes + {pair}| == if pair in likes then |likes| else |likes| + 1
  {
    if pair in likes {
      assert likes + {pair} == likes;
    } else {
      assert (likes + {pair}) - {pair} == likes;
    }
  }

  // ---------------------------------------------------------------- handlers that write

  /** `/check-email`'s answer. */
  datatype EmailCheckReply = EmailCheck(userExists: bool) | EmailCheckError(status: nat, error: string)

  /** `/api/add-like`'s first answer, or none when the like already existed. */
  datatype LikeReply = LikeAnswer(status: nat, message: string) | NoAnswer

  class Database {
    var users: seq<User>
    var pictures: seq<Picture>
    var likes: set<(string, string)>

    constructor (users0: seq<User>, pictures0: seq<Picture>, likes0: set<(string, string)>)
      ensures users == users0 && pictures == pictures0 && likes == likes0
    {
      users, pictures, likes := users0, pictures0, likes0;
    }

    /** `/check-email`: insert-if-absent on the users table; the answer says whether
        the email has a row with a name. */
    method CheckEmail(email: Option<string>) returns (reply: EmailCheckReply)
      modifies this`users
      ensures !Truthy(email) ==> users == old(users) && reply == EmailCheckError(400, "Email is required")
      ensures Truthy(email) && email.value in Emails(old(users)) ==>
        users == old(users) && reply == EmailCheck(Truthy(old(users)[FirstWithEmail(old(users), email.value)].name))
      ensures Truthy(email) && email.value !in Emails(old(users)) ==>
        users == old(users) + [NewUser(email.value)] && reply == EmailCheck(false)
      ensures Truthy(email) ==> email.value in Emails(users)
    {
      if !Truthy(email) {
        return EmailCheckError(400, "Email is required");
      }
      FirstWithEmailFindsRegistered(users, email.value);
      var k := FirstWithEmail(users, email.value);
      if k < |users| {
        reply := EmailCheck(Truthy(users[k].name));
      } else {
        users := users + [NewUser(email.value)];
        assert users[|users| - 1] == NewUser(email.value);
        reply := EmailCheck(false);
      }
    }

    /** `/api/updateUserPlan`: store the toggle of the submitted plan on the caller's rows
        and answer `{ success: true }`. */
    method UpdateUserPlan(email: string, plan: Option<string>) returns (success: bool)
      modifies this`users
      ensures users == SetSubscription(old(users), email, TogglePlan(plan))
      ensures success
    {
      success := true;
      users := SetSubscription(users, email, TogglePlan(plan));
    }

    /** `/api/add-like` for the caller `liker`. A missing `likedEmail` is answered
        with 500 without a return, so an empty one still reaches the insert. */
    method AddLike(liker: string, liked: Option<string>) returns (reply: LikeReply)
      modifies this`likes
      ensures liked.None? ==>
        likes == old(likes) && reply == LikeAnswer(500, "Both likerEmail and likedEmail must be provided.")
      ensures liked.Some? ==> likes == old(likes) + {(liker, liked.value)}
      ensures liked == Some("") ==> reply == LikeAnswer(500, "Both likerEmail and likedEmail must be provided.")
      ensures Truthy(liked) ==>
        reply == if (liker, liked.value) in old(likes) then NoAnswer else LikeAnswer(201, "Like added successfully.")
    {
      if liked.None? {
        return LikeAnswer(500, "Both likerEmail and likedEmail must be provided.");
      }
      var first: LikeReply := NoAnswer;
      if liked.value == "" {
        first := LikeAnswer(500, "Both likerEmail and likedEmail must be provided.");
      }
      if (liker, liked.value) in likes {
        return first;
      }
      likes := likes + {(liker, liked.value)};
      reply := if first.NoAnswer? then LikeAnswer(201, "Like added successfully.") else first;
    }
  }
}
