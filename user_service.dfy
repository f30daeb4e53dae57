/** UserServiceImpl: registration with its ordered checks, and the login
    state kept in one session attribute. */
module UserService {
  import opened Common
  import opened JavaText
  import opened Entities

  /** The salt around the password before hashing. */
  const Salt := "123456"

  /** `UserConstant.USER_LOGIN_STATE`, the session key of the logged-in user. */
  const UserLoginState := "user_login"

  /** A BusinessException built from the code alone carries the code's own
      message, which is not part of this model; the empty string stands for it. */
  const CodeMessage := ""

  /** `getEncryptPassword`: the MD5 hex digest (a parameter, `md5`) of the
      salted password. */
  function EncryptPassword(md5: string -> string, password: string): string
  {
    md5(Salt + password + Salt)
  }

  /** No two strings share a digest. */
  ghost predicate Injective(md5: string -> string)
  {
    forall x, y :: md5(x) == md5(y) ==> x == y
  }

  /** Salting loses nothing: with a digest that tells strings apart, two
      passwords that encrypt alike are the same password. */
  lemma EncryptPasswordInjective(md5: string -> string, p: string, q: string)
    requires Injective(md5)
    ensures EncryptPassword(md5, p) == EncryptPassword(md5, q) ==> p == q
  {
    if EncryptPassword(md5, p) == EncryptPassword(md5, q) {
      var x := Salt + p + Salt;
      var y := Salt + q + Salt;
      assert x == y;
      assert |p| == |q|;
      assert p == x[|Salt|..|Salt| + |p|];
      assert q == y[|Salt|..|Salt| + |q|];
    }
  }

  /** A wrong password is refused: when the account's row holds the
      encryption of p, logging in with any other password q fails with
      "用户账号不存在或密码错误". */
  lemma WrongPasswordRefused(users: seq<User>, k: nat, p: string, q: string, md5: string -> string)
    requires Injective(md5) && UniqueAccounts(users)
    requires k < |users| && users[k].userPassword == EncryptPassword(md5, p)
    requires !IsBlank(Some(users[k].userAccount)) && !IsBlank(Some(q)) && q != p
    ensures LoginOutcome(users, Some(users[k].userAccount), Some(q), md5)
         == Fail(Business(ParamsError, "用户账号不存在或密码错误"))
  {
    var account := users[k].userAccount;
    EncryptPasswordInjective(md5, p, q);
    forall j | 0 <= j < |users| && users[j].userAccount == account
      ensures users[j].userPassword != EncryptPassword(md5, q)
    {
      assert j == k;
    }
  }

  /** hutool `StrUtil.hasBlank` over two and over three strings. */
  predicate HasBlank2(a: Option<string>, b: Option<string>)
  {
    IsBlank(a) || IsBlank(b)
  }

  predicate HasBlank3(a: Option<string>, b: Option<string>, c: Option<string>)
  {
    IsBlank(a) || IsBlank(b) || IsBlank(c)
  }

  /** The request fields of `register`. */
  datatype RegisterRequest = RegisterRequest(userAccount: Option<string>, userPassword: Option<string>, checkPassword: Option<string>)

  /** The checks of `register` that need no database, in source order; the
      first that fails decides the error. */
  function RegisterCheck(req: RegisterRequest): (e: Option<Error>)
    ensures e.None? ==> req.userAccount.Some? && req.userPassword.Some? && req.checkPassword.Some?
    ensures e.Some? ==> e.value.Business? && e.value.code == ParamsError
  {
    if HasBlank3(req.userAccount, req.userPassword, req.checkPassword) then Some(Business(ParamsError, CodeMessage))
    else if req.userPassword.value != req.checkPassword.value then Some(Business(ParamsError, "两次密码不一致"))
    else if |req.userAccount.value| < 4 then Some(Business(ParamsError, "用户账号过短"))
    else if |req.userPassword.value| < 8 then Some(Business(ParamsError, "用户密码过短"))
    else None
  }

  /** A request passes the checks exactly when no field is blank, the two
      passwords agree, the account has at least 4 chars and the password at
      least 8. */
  lemma RegisterCheckPassesIff(req: RegisterRequest)
    ensures RegisterCheck(req).None? <==>
      && !IsBlank(req.userAccount) && !IsBlank(req.userPassword) && !IsBlank(req.checkPassword)
      && req.userPassword.value == req.checkPassword.value
      && |req.userAccount.value| >= 4 && |req.userPassword.value| >= 8
  {
  }

  /** The order of the checks: a blank field wins over a mismatch, a
      mismatch over a short account, a short account over a short password. */
  lemma RegisterCheckOrder(req: RegisterRequest)
    ensures HasBlank3(req.userAccount, req.userPassword, req.checkPassword)
         ==> RegisterCheck(req) == Some(Business(ParamsError, CodeMessage))
    ensures !HasBlank3(req.userAccount, req.userPassword, req.checkPassword)
         && req.userPassword.value != req.checkPassword.value
         ==> RegisterCheck(req) == Some(Business(ParamsError, "两次密码不一致"))
    ensures !HasBlank3(req.userAccount, req.userPassword, req.checkPassword)
         && req.userPassword.value == req.checkPassword.value && |req.userAccount.value| < 4
         ==> RegisterCheck(req) == Some(Business(ParamsError, "用户账号过短"))
    ensures !HasBlank3(req.userAccount, req.userPassword, req.checkPassword)
         && req.userPassword.value == req.checkPassword.value && |req.userAccount.value| >= 4
         && |req.userPassword.value| < 8
         ==> RegisterCheck(req) == Some(Business(ParamsError, "用户密码过短"))
  {
  }

  /** An account of spaces only is blank, so it fails the first check with
      the plain PARAMS_ERROR, not with "用户账号过短". */
  lemma SpacesAccountIsBlank()
    ensures RegisterCheck(RegisterRequest(Some("    "), Some("password1"), Some("password1")))
         == Some(Business(ParamsError, CodeMessage))
  {
    assert IsBlankChar("    "[0]) && IsBlankChar("    "[1]) && IsBlankChar("    "[2]) && IsBlankChar("    "[3]);
  }

  /** Some stored user has the account (`selectCountByQuery(...) > 0`). */
  predicate AccountTaken(users: seq<User>, account: string)
  {
    exists k :: 0 <= k < |users| && users[k].userAccount == account
  }

  /** No two stored users share an account. */
  predicate UniqueAccounts(users: seq<User>)
  {
    forall j, k :: 0 <= j < k < |users| ==> users[j].userAccount != users[k].userAccount
  }

  /** The user row `register` saves. */
  function NewUser(id: int, account: string, password: string, md5: string -> string): (u: User)
    ensures u.userAccount == account && u.userName == account && u.userRole == UserRole
    ensures u.userPassword == EncryptPassword(md5, password)
  {
    User(id, account, EncryptPassword(md5, password), account, UserRole)
  }

  /** `getOne(eq(userAccount).eq(userPassword))`: the first matching row. */
  function FindUser(users: seq<User>, account: string, encrypted: string): (r: Option<User>)
    ensures r.Some? ==> r.value.userAccount == account && r.value.userPassword == encrypted
    ensures r.Some? ==> exists k :: 0 <= k < |users| && users[k] == r.value
    ensures r.None? ==> forall k :: 0 <= k < |users| ==>
      !(users[k].userAccount == account && users[k].userPassword == encrypted)
  {
    if users == [] then None
    else if users[0].userAccount == account && users[0].userPassword == encrypted then Some(users[0])
    else
      var r := FindUser(users[1..], account, encrypted);
      assert forall k :: 1 <= k < |users| ==> users[k] == users[1..][k - 1];
      r
  }

  /** What `login` finds: blank fields are PARAMS_ERROR, so is a pair of
      account and password that no row has. */
  function LoginOutcome(users: seq<User>, account: Option<string>, password: Option<string>, md5: string -> string): (r: Result<User>)
    ensures HasBlank2(account, password) ==> r == Fail(Business(ParamsError, CodeMessage))
    ensures r.Ok? ==>
      && r.value in users && r.value.userAccount == account.value
      && r.value.userPassword == EncryptPassword(md5, password.value)
    ensures !HasBlank2(account, password) && r.Fail? ==>
      && r == Fail(Business(ParamsError, "用户账号不存在或密码错误"))
      && forall k :: 0 <= k < |users| ==>
           !(users[k].userAccount == account.value && users[k].userPassword == EncryptPassword(md5, password.value))
  {
    if HasBlank2(account, password) then Fail(Business(ParamsError, CodeMessage))
    else
      match FindUser(users, account.value, EncryptPassword(md5, password.value))
      case None => Fail(Business(ParamsError, "用户账号不存在或密码错误"))
      case Some(u) => Ok(u)
  }

  /** What `getLoginUser` sees in the session attributes. */
  function LoginState(attributes: map<string, User>): (r: Result<User>)
    ensures r.Ok? <==> UserLoginState in attributes
    ensures r.Ok? ==> r.value == attributes[UserLoginState]
    ensures r.Fail? ==> r.error == Business(NotLoginError, CodeMessage)
  {
    if UserLoginState in attributes then Ok(attributes[UserLoginState]) else Fail(Business(NotLoginError, CodeMessage))
  }

  /** The user view `login` returns, its fields copied from the row. */
  datatype LoginUserVo = LoginUserVo(id: int, userAccount: string, userName: string, userRole: string)

  function ToLoginUserVo(u: User): LoginUserVo
  {
    LoginUserVo(u.id, u.userAccount, u.userName, u.userRole)
  }

  /** A registered account can log in with its password: registering keeps
      accounts unique, and login then finds exactly the new row. */
  lemma RegisterThenLogin(users: seq<User>, id: int, account: string, password: string, md5: string -> string)
    requires UniqueAccounts(users) && !AccountTaken(users, account)
    requires !IsBlank(Some(account)) && !IsBlank(Some(password))
    ensures UniqueAccounts(users + [NewUser(id, account, password, md5)])
    ensures LoginOutcome(users + [NewUser(id, account, password, md5)], Some(account), Some(password), md5)
         == Ok(NewUser(id, account, password, md5))
  {
    var u := NewUser(id, account, password, md5);
    var all := users + [u];
    forall k | 0 <= k < |users| ensures all[k].userAccount != account {
      assert all[k] == users[k];
    }
    FindLast(all, account, EncryptPassword(md5, password));
  }

  /** The lookup finds the last row when no earlier row has its account. */
  lemma {:induction false} FindLast(users: seq<User>, account: string, encrypted: string)
    requires |users| > 0 && users[|users| - 1].userAccount == account && users[|users| - 1].userPassword == encrypted
    requires forall k :: 0 <= k < |users| - 1 ==> users[k].userAccount != account
    ensures FindUser(users, account, encrypted) == Some(users[|users| - 1])
    decreases |users|
  {
    if |users| > 1 {
      assert forall k :: 0 <= k < |users[1..]| - 1 ==> users[1..][k] == users[k + 1];
      FindLast(users[1..], account, encrypted);
    }
  }

  /** After a login the session yields the logged-in user; after a logout it
      yields NOT_LOGIN_ERROR. */
  lemma LoginStateAfterLoginAndLogout(attributes: map<string, User>, u: User)
    ensures LoginState(attributes[UserLoginState := u]) == Ok(u)
    ensures LoginState(attributes - {UserLoginState}) == Fail(Business(NotLoginError, CodeMessage))
  {
  }

  /** The HTTP session's attribute map, holding the logged-in user. */
  class Session {
    var attributes: map<string, User>

    constructor ()
      ensures attributes == map[]
    {
      attributes := map[];
    }
  }

  /** The `user` table and the service methods over it. */
  class UserServiceImpl {
    var users: seq<User>
    /** The id the database gives the next saved row. */
    var nextId: int
    /** When set, `save` reports failure. */
    const saveFails: bool
    const md5: string -> string

    /** Accounts are unique, and every stored id is below the next one. */
    ghost predicate Valid()
      reads this
    {
      && UniqueAccounts(users)
      && forall k :: 0 <= k < |users| ==> users[k].id < nextId
    }

    constructor (md5: string -> string, saveFails: bool)
      ensures Valid() && users == [] && this.md5 == md5 && this.saveFails == saveFails
    {
      users := [];
      nextId := 1;
      this.md5 := md5;
      this.saveFails := saveFails;
    }

    /** `register`: the checks, then the account lookup, then the save;
        returns the new row's id. */
    method Register(req: RegisterRequest) returns (r: Result<int>)
      requires Valid()
      modifies this
      ensures Valid()
      ensures RegisterCheck(req).Some? ==> r == Fail(RegisterCheck(req).value) && users == old(users)
      ensures RegisterCheck(req).None? && AccountTaken(old(users), req.userAccount.value) ==>
        r == Fail(Business(ParamsError, "用户账号已存在")) && users == old(users)
      ensures RegisterCheck(req).None? && !AccountTaken(old(users), req.userAccount.value) && saveFails ==>
        r == Fail(Business(OperationError, "数据库异常")) && users == old(users)
      ensures RegisterCheck(req).None? && !AccountTaken(old(users), req.userAccount.value) && !saveFails ==>
        && users == old(users) + [NewUser(old(nextId), req.userAccount.value, req.userPassword.value, md5)]
        && r == Ok(old(nextId))
      ensures r.Fail? ==> nextId == old(nextId)
      ensures r.Ok? ==> nextId == old(nextId) + 1
      ensures r.Ok? ==> forall k :: 0 <= k < |old(users)| ==> old(users)[k].id != r.value
    {
      var invalid := RegisterCheck(req);
      if invalid.Some? {
        return Fail(invalid.value);
      }
      var account := req.userAccount.value;
      if AccountTaken(users, account) {
        return Fail(Business(ParamsError, "用户账号已存在"));
      }
      var user := NewUser(nextId, account, req.userPassword.value, md5);
      if saveFails {
        return Fail(Business(OperationError, "数据库异常"));
      }
      forall k | 0 <= k < |users| ensures (users + [user])[k].userAccount != account && (users + [user])[k].id < nextId + 1 {
        assert (users + [user])[k] == users[k];
      }
      users := users + [user];
      nextId := nextId + 1;
      r := Ok(user.id);
    }

    /** `login`: on success the user is stored in the session. */
    method Login(account: Option<string>, password: Option<string>, session: Session) returns (r: Result<LoginUserVo>)
      modifies session
      ensures var o := LoginOutcome(users, account, password, md5);
        && (o.Ok? ==> r == Ok(ToLoginUserVo(o.value)) && session.attributes == old(session.attributes)[UserLoginState := o.value])
        && (o.Fail? ==> r == Fail(o.error) && session.attributes == old(session.attributes))
    {
      var found := LoginOutcome(users, account, password, md5);
      if found.Fail? {
        return Fail(found.error);
      }
      session.attributes := session.attributes[UserLoginState := found.value];
      r := Ok(ToLoginUserVo(found.value));
    }

    /** `getLoginUser`: the session's user, or NOT_LOGIN_ERROR. */
    method GetLoginUser(session: Session) returns (r: Result<User>)
      ensures r.Ok? <==> UserLoginState in session.attributes
      ensures r.Ok? ==> r.value == session.attributes[UserLoginState]
      ensures r.Fail? ==> r.error == Business(NotLoginError, CodeMessage)
    {
      if UserLoginState !in session.attributes {
        return Fail(Business(NotLoginError, CodeMessage));
      }
      r := Ok(session.attributes[UserLoginState]);
    }

    /** `logout`: NOT_LOGIN_ERROR when nobody is logged in, otherwise the
        attribute is removed and the answer is true. */
    method Logout(session: Session) returns (r: Result<bool>)
      modifies session
      ensures UserLoginState !in old(session.attributes) ==>
        r == Fail(Business(NotLoginError, "用户未登录")) && session.attributes == old(session.attributes)
      ensures UserLoginState in old(session.attributes) ==>
        r == Ok(true) && session.attributes == old(session.attributes) - {UserLoginState}
    {
      if UserLoginState !in session.attributes {
        return Fail(Business(NotLoginError, "用户未登录"));
      }
      session.attributes := session.attributes - {UserLoginState};
      r := Ok(true);
    }
  }
}
