/** `User`: a profile record whose `init` block rejects malformed fields, with two
    derived properties. The `joined` timestamp, which defaults to the wall clock,
    is not part of this model. */
module Users {
  import opened Wrappers
  import opened Numeric
  import opened Text

  datatype UserRecord = UserRecord(
    uid: string,
    name: string,
    username: string,
    email: string,
    avatar: Option<string>,
    point: Int64,
    experience: Int64,
    banned: bool,
    verified: bool)
  {
    /** What the `init` block's six `require`s establish. */
    predicate Valid()
    {
      && !IsBlank(uid)
      && !IsBlank(name)
      && !IsBlank(username)
      && !IsBlank(email) && '@' in email
      && point >= 0
      && experience >= 0
    }
  }

  /** Construction fails unless the record is valid, so every user is. */
  type User = u: UserRecord | u.Valid()
    witness
      assert !IsWhitespace("u"[0]) && !IsWhitespace("@"[0]) && "@"[0] == '@';
      UserRecord("u", "u", "u", "@", None, 0, 0, false, false)

  /** The `init` failures, in the order they are checked. */
  datatype UserError = BlankUid | BlankName | BlankUsername | InvalidEmail
                     | NegativePoint | NegativeExperience

  /** The `User` constructor with its `init` block. */
  function NewUser(uid: string, name: string, username: string, email: string,
                   avatar: Option<string>, point: Int64, experience: Int64,
                   banned: bool, verified: bool): (r: Result<User, UserError>)
    ensures r.Success? <==>
              UserRecord(uid, name, username, email, avatar, point, experience, banned, verified).Valid()
    ensures r.Success? ==>
              r.value == UserRecord(uid, name, username, email, avatar, point, experience, banned, verified)
    ensures IsBlank(uid) ==> r == Failure(BlankUid)
    ensures !IsBlank(uid) && IsBlank(name) ==> r == Failure(BlankName)
    ensures !IsBlank(uid) && !IsBlank(name) && IsBlank(username) ==> r == Failure(BlankUsername)
    ensures (!IsBlank(uid) && !IsBlank(name) && !IsBlank(username)
             && (IsBlank(email) || '@' !in email)) ==> r == Failure(InvalidEmail)
    ensures (!IsBlank(uid) && !IsBlank(name) && !IsBlank(username)
             && !IsBlank(email) && '@' in email && point < 0) ==> r == Failure(NegativePoint)
    ensures r == Failure(NegativeExperience) <==>
              && !IsBlank(uid) && !IsBlank(name) && !IsBlank(username)
              && !IsBlank(email) && '@' in email && point >= 0 && experience < 0
  {
    if IsBlank(uid) then Failure(BlankUid)
    else if IsBlank(name) then Failure(BlankName)
    else if IsBlank(username) then Failure(BlankUsername)
    else if IsBlank(email) || '@' !in email then Failure(InvalidEmail)
    else if point < 0 then Failure(NegativePoint)
    else if experience < 0 then Failure(NegativeExperience)
    else Success(UserRecord(uid, name, username, email, avatar, point, experience, banned, verified))
  }

  /** `isActive`. */
  predicate IsActive(u: User)
  {
    !u.banned && u.verified
  }

  /** Banning deactivates any user; verifying activates any user who is not banned;
      points and experience play no part. */
  lemma ActivityFollowsBanAndVerification(u: User, point: Int64, experience: Int64)
    requires point >= 0 && experience >= 0
    ensures !IsActive(u.(banned := true))
    ensures !IsActive(u.(verified := false))
    ensures IsActive(u.(banned := false, verified := true))
    ensures IsActive(u.(point := point, experience := experience)) == IsActive(u)
  {
  }

  /** `level`, with the arithmetic done in unbounded integers: one level per
      completed thousand experience points, starting at 1. */
  function Level(u: User): (level: int)
    ensures level >= 1
    ensures (level - 1) * 1000 <= u.experience < level * 1000
  {
    u.experience / 1000 + 1
  }

  /** `level` as the getter computes it: `(experience / 1000).toInt() + 1`, where
      the conversion to `Int` keeps the low 32 bits and the `+ 1` is an `Int` addition. */
  function LevelAsWritten(u: User): (level: Int32)
    ensures u.experience < 1000 * INT32_MAX ==> level == Level(u)
  {
    ToInt32(ToInt32(u.experience / 1000) + 1)
  }

  /** The getter's wrap-around: any user with 2,147,483,647,000 to 2,147,483,647,999
      experience points, a legal `Long`, is reported at level -2,147,483,648. */
  lemma LevelAsWrittenGoesNegative(u: User)
    requires 1000 * INT32_MAX <= u.experience < 1000 * INT32_MAX + 1000
    ensures LevelAsWritten(u) == INT32_MIN
    ensures Level(u) == INT32_MAX + 1
  {
    assert u.experience / 1000 == INT32_MAX;
  }

  /** More experience never lowers the level. */
  lemma LevelMonotone(u: User, v: User)
    requires u.experience <= v.experience
    ensures Level(u) <= Level(v)
  {
  }

  /** The level rises by exactly one per thousand experience points, and stays put
      in between. */
  lemma LevelSteps(u: User, extra: nat)
    requires u.experience + extra <= INT64_MAX
    ensures extra == 1000 ==> Level(u.(experience := u.experience + extra)) == Level(u) + 1
    ensures u.experience % 1000 + extra < 1000 ==> Level(u.(experience := u.experience + extra)) == Level(u)
  {
  }
}
