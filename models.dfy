/**
 * The backend's pydantic models: the request bodies with their field
 * constraints and defaults, the stored `User` and `Item` documents, `Token`,
 * and the `PyObjectId` validator. A `Valid()` predicate is what pydantic
 * checks before a route sees the value; a failed check is a 422 response.
 */
module Models {
  import opened Common
  import opened Text

  /** A document id (`_id`); ObjectId, UUID4 and the token's `sub` all stand for one. */
  type Id = nat

  const MaxEmailLength := 255
  const MaxFullNameLength := 255
  const MinPasswordLength := 8
  const MaxPasswordLength := 40
  const MinTitleLength := 1
  const MaxTitleLength := 255
  const MaxDescriptionLength := 255

  const DefaultIsActive := true
  const DefaultIsSuperuser := false
  const DefaultTokenType := "bearer"

  /** The e-mail syntax check of `EmailStr` (and of zod's `.email()`); a stand-in predicate. */
  predicate EmailFormat(s: string)
  {
    '@' in s
  }

  predicate ValidEmail(email: string)
  {
    EmailFormat(email) && |email| <= MaxEmailLength
  }

  predicate ValidPassword(password: string)
  {
    MinPasswordLength <= |password| <= MaxPasswordLength
  }

  predicate ValidFullName(fullName: Option<string>)
  {
    fullName.None? || |fullName.value| <= MaxFullNameLength
  }

  predicate ValidTitle(title: string)
  {
    MinTitleLength <= |title| <= MaxTitleLength
  }

  predicate ValidDescription(description: Option<string>)
  {
    description.None? || |description.value| <= MaxDescriptionLength
  }

  /** `UserCreate`: `UserBase` plus a password of 8 to 40 characters. */
  datatype UserCreate = UserCreate(
    email: string, isActive: bool, isSuperuser: bool, fullName: Option<string>, password: string)
  {
    predicate Valid()
    {
      ValidEmail(email) && ValidFullName(fullName) && ValidPassword(password)
    }
  }

  /** `UserRegister`: the sign-up body, which has no flags. */
  datatype UserRegister = UserRegister(email: string, password: string, fullName: Option<string>)
  {
    predicate Valid()
    {
      ValidEmail(email) && ValidFullName(fullName) && ValidPassword(password)
    }

    /** `UserCreate.model_validate(user_in)`: the flags take their defaults. */
    function ToUserCreate(): (c: UserCreate)
      ensures c.isActive == DefaultIsActive && c.isSuperuser == DefaultIsSuperuser
      ensures c.email == email && c.password == password && c.fullName == fullName
      ensures Valid() ==> c.Valid()
    {
      UserCreate(email, DefaultIsActive, DefaultIsSuperuser, fullName, password)
    }
  }

  /** `UserUpdate`: every field optional; `None` is a field the request did not set. */
  datatype UserUpdate = UserUpdate(
    email: Option<string>, password: Option<string>, isActive: Option<bool>,
    isSuperuser: Option<bool>, fullName: Option<string>)
  {
    predicate Valid()
    {
      (email.None? || ValidEmail(email.value))
      && (password.None? || ValidPassword(password.value))
      && ValidFullName(fullName)
    }
  }

  /** `UserUpdateMe`: the fields a user may change on their own record. */
  datatype UserUpdateMe = UserUpdateMe(fullName: Option<string>, email: Option<string>)
  {
    predicate Valid()
    {
      ValidFullName(fullName) && (email.None? || ValidEmail(email.value))
    }
  }

  datatype UpdatePassword = UpdatePassword(currentPassword: string, newPassword: string)
  {
    predicate Valid()
    {
      ValidPassword(currentPassword) && ValidPassword(newPassword)
    }
  }

  datatype NewPassword = NewPassword(token: string, newPassword: string)
  {
    predicate Valid()
    {
      ValidPassword(newPassword)
    }
  }

  /** The stored `User` document; `Valid()` is what `User.model_validate` checks. */
  datatype User = User(
    id: Id, email: string, isActive: bool, isSuperuser: bool,
    fullName: Option<string>, hashedPassword: string)
  {
    predicate Valid()
    {
      ValidEmail(email) && ValidFullName(fullName)
    }
  }

  datatype ItemCreate = ItemCreate(title: string, description: Option<string>)
  {
    predicate Valid()
    {
      ValidTitle(title) && ValidDescription(description)
    }
  }

  /** `ItemUpdate`: both fields optional, the title still 1 to 255 characters when given. */
  datatype ItemUpdate = ItemUpdate(title: Option<string>, description: Option<string>)
  {
    predicate Valid()
    {
      (title.None? || ValidTitle(title.value)) && ValidDescription(description)
    }
  }

  /** The stored `Item` document; `createdAt` is the clock reading taken when it was saved. */
  datatype Item = Item(
    id: Id, title: string, description: Option<string>, ownerId: Id, createdAt: int)

  datatype Token = Token(accessToken: string, tokenType: string)

  /** `Token(access_token=...)`: the type defaults to "bearer". */
  function NewToken(accessToken: string): (t: Token)
    ensures t.accessToken == accessToken && t.tokenType == "bearer"
  {
    Token(accessToken, DefaultTokenType)
  }

  /** `ObjectId.is_valid` on a string: 24 hexadecimal digits. */
  predicate ObjectIdValid(value: string)
  {
    |value| == 24 && forall i :: 0 <= i < |value| ==> IsHex(value[i])
  }

  /** `PyObjectId.validate`: a ValueError, reported as a 422, for anything `ObjectId.is_valid` rejects. */
  function ValidateObjectId(value: string): (r: Result<string>)
    ensures r.Ok? <==> ObjectIdValid(value)
    ensures r.Ok? ==> r.value == value
    ensures r.Err? ==> r.error.status == UnprocessableContent
  {
    if ObjectIdValid(value) then Ok(value)
    else Err(HttpError(UnprocessableContent, "Value error, Invalid ObjectId"))
  }

  /** Every field of `UserUpdate` and `UserUpdateMe` may be left out. */
  lemma UpdatesMayBeEmpty()
    ensures UserUpdate(None, None, None, None, None).Valid()
    ensures UserUpdateMe(None, None).Valid()
    ensures ItemUpdate(None, None).Valid()
  {
  }
}
