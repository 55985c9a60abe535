/** The user cache, wallet provisioning, and the pipeline from a handler call to a wallet RPC. */
module Signer {
  import opened Wrappers
  import opened Auth
  import opened Text

  // ---- Data ----------------------------------------------------------------

  datatype LinkedAccount = LinkedAccount(walletId: string, chainType: string, delegated: bool, address: string)

  datatype User = User(privyId: string, accounts: seq<LinkedAccount>)

  datatype SignRequest =
    | UserRequest(verb: string, hash: string)
    | AxalRequest(verb: string, hash: string, privyId: string)

  datatype HttpError = HttpError(code: int, message: string)

  datatype ErrorBody = ReadFailed | NotJson | Json(error: string)

  /** What becomes of one HTTP exchange, up to the decoded body of a 200 response. */
  datatype Reply<+T> =
    | NotBuilt
    | NoResponse
    | BadStatus(code: int, body: ErrorBody)
    | Undecodable
    | Body(value: T)

  const INTERNAL := HttpError(500, "Internal Server Error")

  function ReplyError<T>(r: Reply<T>): HttpError
    requires !r.Body?
  {
    match r
    case BadStatus(code, ReadFailed) => INTERNAL
    case BadStatus(code, NotJson) => HttpError(code, "Unable to parse Privy Error")
    case BadStatus(code, Json(error)) => HttpError(code, error)
    case _ => INTERNAL
  }

  predicate ValidTxRequest(r: SignRequest) {
    r.verb == "secp256k1_sign" && r.hash != "" && (r.AxalRequest? ==> r.privyId != "")
  }

  // ---- Wallet choice -----------------------------------------------------------

  predicate IsDelegatedEth(a: LinkedAccount) {
    a.delegated && a.chainType == "ethereum"
  }

  function EthWallet(accounts: seq<LinkedAccount>): Option<LinkedAccount> {
    if accounts == [] then None
    else if IsDelegatedEth(accounts[0]) then Some(accounts[0])
    else EthWallet(accounts[1..])
  }

  /** The loop of GetUsersEthDelegatedWallet. */
  method FindEthWallet(accounts: seq<LinkedAccount>) returns (wallet: Option<LinkedAccount>)
    ensures wallet == EthWallet(accounts)
    ensures wallet.None? <==> forall a | a in accounts :: !(a.delegated && a.chainType == "ethereum")
    ensures wallet.Some? ==> exists i :: 0 <= i < |accounts| && wallet.value == accounts[i]
                                      && accounts[i].delegated && accounts[i].chainType == "ethereum"
                                      && forall j | 0 <= j < i :: !(accounts[j].delegated && accounts[j].chainType == "ethereum")
  {
    for i := 0 to |accounts|
      invariant forall j | 0 <= j < i :: !IsDelegatedEth(accounts[j])
      invariant EthWallet(accounts) == EthWallet(accounts[i..])
    {
      assert accounts[i..][0] == accounts[i] && accounts[i..][1..] == accounts[i + 1..];
      if accounts[i].delegated && accounts[i].chainType == "ethereum" {
        return Some(accounts[i]);
      }
    }
    return None;
  }

  function Wallets(accounts: seq<LinkedAccount>): nat {
    if accounts == [] then 0
    else Wallets(accounts[1..]) + if IsDelegatedEth(accounts[0]) then 1 else 0
  }

  lemma {:induction false} WalletsCounted(accounts: seq<LinkedAccount>)
    ensures Wallets(accounts) > 0 <==> EthWallet(accounts).Some?
  {
    if accounts != [] {
      WalletsCounted(accounts[1..]);
    }
  }

  lemma {:induction false} WalletsAppendOne(accounts: seq<LinkedAccount>, w: LinkedAccount)
    requires IsDelegatedEth(w)
    ensures Wallets(accounts + [w]) == Wallets(accounts) + 1
  {
    if accounts == [] {
      assert [w][1..] == [] && accounts + [w] == [w];
    } else {
      WalletsAppendOne(accounts[1..], w);
      assert (accounts + [w])[1..] == accounts[1..] + [w];
    }
  }

  lemma {:induction false} EthWalletAppend(a: seq<LinkedAccount>, b: seq<LinkedAccount>)
    ensures EthWallet(a + b) == if EthWallet(a).Some? then EthWallet(a) else EthWallet(b)
  {
    if a == [] {
      assert a + b == b;
    } else {
      EthWalletAppend(a[1..], b);
      assert (a + b)[1..] == a[1..] + b;
    }
  }

  lemma {:induction false} EthWalletIs(accounts: seq<LinkedAccount>)
    ensures EthWallet(accounts).Some? ==> IsDelegatedEth(EthWallet(accounts).value) && EthWallet(accounts).value in accounts
  {
    if accounts != [] {
      EthWalletIs(accounts[1..]);
    }
  }

  // ---- The accounts a create response lists ----------------------------------------

  /** The response's list holds pointers, so that JSON null in it gives an entry without an account. */
  type Listed = seq<Option<LinkedAccount>>

  function Listing(accounts: seq<LinkedAccount>): Listed {
    seq(|accounts|, i requires 0 <= i < |accounts| => Some(accounts[i]))
  }

  /** What the web framework answers after a panic: no message. */
  const PANICKED := HttpError(500, "")

  /** The first delegated ethereum wallet; an empty entry before it makes the code panic. */
  function FirstListed(listed: Listed): Result<LinkedAccount, HttpError> {
    if listed == [] then Err(INTERNAL)
    else if listed[0].None? then Err(PANICKED)
    else if IsDelegatedEth(listed[0].value) then Ok(listed[0].value)
    else FirstListed(listed[1..])
  }

  /** The search loop of createUserWalletsIfNotExists. */
  method FindListed(listed: Listed) returns (found: Result<LinkedAccount, HttpError>)
    ensures found == FirstListed(listed)
  {
    for i := 0 to |listed|
      invariant FirstListed(listed) == FirstListed(listed[i..])
    {
      assert listed[i..][0] == listed[i] && listed[i..][1..] == listed[i + 1..];
      if listed[i].None? {
        return Err(PANICKED);
      }
      if listed[i].value.delegated && listed[i].value.chainType == "ethereum" {
        return Ok(listed[i].value);
      }
    }
    return Err(INTERNAL);
  }

  lemma {:induction false} FirstListedIs(listed: Listed)
    ensures FirstListed(listed).Ok? ==> IsDelegatedEth(FirstListed(listed).value) && Some(FirstListed(listed).value) in listed
  {
    if listed != [] {
      FirstListedIs(listed[1..]);
    }
  }

  /** What is found is the first delegated ethereum account, with no empty entry before it. */
  lemma {:induction false} FirstListedMeans(listed: Listed)
    ensures FirstListed(listed).Ok? <==> exists i :: FirstAt(listed, i)
    ensures forall i | FirstAt(listed, i) :: FirstListed(listed).Ok? && listed[i] == Some(FirstListed(listed).value)
  {
    if listed != [] {
      var rest := listed[1..];
      FirstListedMeans(rest);
      forall i | FirstAt(listed, i) ensures FirstListed(listed).Ok? && listed[i] == Some(FirstListed(listed).value) {
        if i > 0 {
          assert listed[0].Some? && !IsDelegatedEth(listed[0].value);
          assert forall j | 0 <= j < i - 1 :: rest[j] == listed[j + 1];
          assert FirstAt(rest, i - 1);
        }
      }
      if FirstListed(listed).Ok? {
        if IsDelegatedEth(listed[0].value) {
          assert FirstAt(listed, 0);
        } else {
          var i :| FirstAt(rest, i);
          assert forall j | 0 < j < i + 1 :: listed[j] == rest[j - 1];
          assert FirstAt(listed, i + 1);
        }
      }
    }
  }

  predicate FirstAt(listed: Listed, i: int) {
    && 0 <= i < |listed| && listed[i].Some? && listed[i].value.delegated && listed[i].value.chainType == "ethereum"
    && forall j | 0 <= j < i :: listed[j].Some? && !(listed[j].value.delegated && listed[j].value.chainType == "ethereum")
  }

  /** Without empty entries it is the wallet of the listed accounts. */
  lemma {:induction false} FirstListedOf(accounts: seq<LinkedAccount>)
    ensures FirstListed(Listing(accounts)) ==
            if EthWallet(accounts).Some? then Ok(EthWallet(accounts).value) else Err(INTERNAL)
  {
    if accounts != [] {
      assert Listing(accounts)[1..] == Listing(accounts[1..]);
      FirstListedOf(accounts[1..]);
    }
  }

  lemma EthWalletAppendOne(a: seq<LinkedAccount>, w: LinkedAccount)
    requires IsDelegatedEth(w)
    ensures EthWallet(a + [w]) == if EthWallet(a).Some? then EthWallet(a) else Some(w)
  {
    EthWalletAppend(a, [w]);
  }

  // ---- Handler calls and their admission -------------------------------------------

  datatype Handler = UserSign | AxalSign | UserLookup

  /** One incoming request: the auth header, the bound body (None if binding fails) and the time. */
  datatype Call = Call(handler: Handler, auth: string, body: Option<SignRequest>, now: int)

  predicate WellFormedCall(call: Call) {
    && (call.handler == UserSign && call.body.Some? ==> call.body.value.UserRequest?)
    && (call.handler == AxalSign && call.body.Some? ==> call.body.value.AxalRequest?)
    && (call.handler == UserLookup ==> call.body.None?)
  }

  /** authorize stands for the authorization signature over body, method and URL. */
  datatype Config = Config(baseUrl: string, auth: AuthConfig, authorize: (SignRequest, string, string) -> Option<string>)

  function Authenticate(cfg: Config, call: Call): Result<string, HttpError>
    requires WellFormedCall(call) && (call.handler == AxalSign ==> call.body.Some?)
  {
    if call.handler == AxalSign then
      if VerifyAxalSignature(cfg.auth, call.body.value.hash, call.auth) then Ok(call.body.value.privyId)
      else Err(HttpError(401, "Unauthorized User - Invalid HMAC"))
    else
      match ExtractPrivyId(cfg.auth, call.auth, call.now)
      case Some(id) => Ok(id)
      case None => Err(HttpError(401, "Unauthorized User"))
  }

  /** The checks a handler makes before it looks at the user: the id the call acts for. */
  function Admit(cfg: Config, call: Call): Result<string, HttpError>
    requires WellFormedCall(call)
  {
    if call.auth == "" then Err(HttpError(401, if call.handler == AxalSign then "Missing HMAC signature" else "Unauthorized user"))
    else if call.handler != UserLookup && (call.body.None? || !ValidTxRequest(call.body.value)) then Err(HttpError(400, "tx data is invalid"))
    else Authenticate(cfg, call)
  }

  /**
   * The HMAC covers the hash alone: a backend call is admitted for whatever id its body names, and one
   * accepted header admits the same hash for every non-empty id.
   */
  lemma BackendIdUnchecked(cfg: Config, auth: string, verb: string, hash: string, id: string, now: int)
    ensures var admitted := Admit(cfg, Call(AxalSign, auth, Some(AxalRequest(verb, hash, id)), now));
            && (admitted.Ok? <==> id != "" && hash != "" && verb == "secp256k1_sign"
                                  && auth != "" && auth == Hex(cfg.auth.hmac(cfg.auth.axalSecret, hash)))
            && (admitted.Ok? ==> admitted.value == id)
  {
  }

  /** The call is admitted for one id exactly if it is for the other. */
  lemma BackendIdsAlike(cfg: Config, auth: string, verb: string, hash: string, id: string, id': string, now: int)
    requires id != "" && id' != ""
    ensures Admit(cfg, Call(AxalSign, auth, Some(AxalRequest(verb, hash, id)), now)) == Ok(id) <==>
            Admit(cfg, Call(AxalSign, auth, Some(AxalRequest(verb, hash, id')), now)) == Ok(id')
  {
    BackendIdUnchecked(cfg, auth, verb, hash, id, now);
    BackendIdUnchecked(cfg, auth, verb, hash, id', now);
  }

  /** A header that admits one hash admits another exactly if their HMACs agree, for an HMAC that returns bytes. */
  lemma BackendHashes(cfg: Config, auth: string, id: string, hash: string, hash': string, now: int)
    requires IsBytes(cfg.auth.hmac(cfg.auth.axalSecret, hash)) && IsBytes(cfg.auth.hmac(cfg.auth.axalSecret, hash'))
    requires Admit(cfg, Call(AxalSign, auth, Some(AxalRequest("secp256k1_sign", hash, id)), now)).Ok? && hash' != ""
    ensures Admit(cfg, Call(AxalSign, auth, Some(AxalRequest("secp256k1_sign", hash', id)), now)).Ok? <==>
            cfg.auth.hmac(cfg.auth.axalSecret, hash) == cfg.auth.hmac(cfg.auth.axalSecret, hash')
  {
    HexInjective(cfg.auth.hmac(cfg.auth.axalSecret, hash), cfg.auth.hmac(cfg.auth.axalSecret, hash'));
  }

  /** A signing call of a user is admitted for the id of its token and for no other, a lookup likewise. */
  lemma UserAdmitted(cfg: Config, call: Call, id: string)
    requires WellFormedCall(call) && call.handler != AxalSign
    ensures Admit(cfg, call) == Ok(id) <==>
            && call.auth != "" && ExtractPrivyId(cfg.auth, call.auth, call.now) == Some(id)
            && (call.handler == UserSign ==> call.body.Some? && call.body.value.verb == "secp256k1_sign" && call.body.value.hash != "")
  {
  }

  /** A call is turned away as malformed (400) if it has a header but no valid request, and as unauthorized (401) otherwise. */
  lemma RefusalStatus(cfg: Config, call: Call)
    requires WellFormedCall(call) && Admit(cfg, call).Err?
    ensures Admit(cfg, call).error.code == 400 <==>
            call.auth != "" && call.handler != UserLookup
            && (call.body.None? || call.body.value.verb != "secp256k1_sign" || call.body.value.hash == ""
                || (call.body.value.AxalRequest? && call.body.value.privyId == ""))
    ensures Admit(cfg, call).error ==
            if Admit(cfg, call).error.code == 400 then HttpError(400, "tx data is invalid")
            else HttpError(401, if call.handler == AxalSign then if call.auth == "" then "Missing HMAC signature" else "Unauthorized User - Invalid HMAC"
                                else if call.auth == "" then "Unauthorized user" else "Unauthorized User")
  {
  }

  // ---- Requests sent -------------------------------------------------------------------

  datatype Rpc = Rpc(walletId: string, url: string, body: SignRequest, signature: string)

  datatype Request = GetUser(url: string) | CreateWallet(url: string) | WalletRpc(rpc: Rpc)

  function UserUrl(cfg: Config, id: string): string {
    cfg.baseUrl + "/v1/users/" + id
  }

  function WalletsUrl(cfg: Config, id: string): string {
    cfg.baseUrl + "/v1/users/" + id + "/wallets"
  }

  function RpcUrl(cfg: Config, walletId: string): string {
    cfg.baseUrl + "/v1/wallets/" + walletId + "/rpc"
  }

  /** The addresses, as paths of named parts below the base. */
  lemma UrlParts(cfg: Config, id: string)
    ensures UserUrl(cfg, id) == cfg.baseUrl + Join(["", "v1", "users", id], "/")
    ensures WalletsUrl(cfg, id) == cfg.baseUrl + Join(["", "v1", "users", id, "wallets"], "/")
    ensures RpcUrl(cfg, id) == cfg.baseUrl + Join(["", "v1", "wallets", id, "rpc"], "/")
  {
    PathLiterals();
    PathOfFour(cfg.baseUrl, "v1", "users", id);
    PathOfFive(cfg.baseUrl, "v1", "users", id, "wallets");
    PathOfFive(cfg.baseUrl, "v1", "wallets", id, "rpc");
  }

  lemma PathLiterals()
    ensures "/" + "v1" + "/" + "users" + "/" == "/v1/users/" && "/" + "v1" + "/" + "wallets" + "/" == "/v1/wallets/"
    ensures "/" + "wallets" == "/wallets" && "/" + "rpc" == "/rpc"
  {
  }

  lemma PathOfFour(base: string, a: string, b: string, c: string)
    ensures base + Join(["", a, b, c], "/") == base + ("/" + a + "/" + b + "/") + c
  {
    JoinFour("", a, b, c);
    assert "" + "/" + (a + "/" + (b + "/" + c)) == ("/" + a + "/" + b + "/") + c;
  }

  lemma PathOfFive(base: string, a: string, b: string, c: string, d: string)
    ensures base + Join(["", a, b, c, d], "/") == base + ("/" + a + "/" + b + "/") + c + ("/" + d)
  {
    JoinFour(a, b, c, d);
    assert ["", a, b, c, d][1..] == [a, b, c, d];
    assert "" + "/" + (a + "/" + (b + "/" + (c + "/" + d))) == ("/" + a + "/" + b + "/") + c + ("/" + d);
  }

  lemma JoinFour(a: string, b: string, c: string, d: string)
    ensures Join([a, b, c, d], "/") == a + "/" + (b + "/" + (c + "/" + d))
  {
    assert [a, b, c, d][1..] == [b, c, d] && [b, c, d][1..] == [c, d] && [c, d][1..] == [d];
    assert Join([c, d], "/") == c + "/" + d;
    assert Join([b, c, d], "/") == b + "/" + (c + "/" + d);
  }

  /** An id without a slash is one of the parts that the path splits into. */
  lemma UrlSplits(cfg: Config, id: string)
    requires Free(id, '/')
    ensures Split(UserUrl(cfg, id)[|cfg.baseUrl|..], '/') == ["", "v1", "users", id]
    ensures Split(WalletsUrl(cfg, id)[|cfg.baseUrl|..], '/') == ["", "v1", "users", id, "wallets"]
    ensures Split(RpcUrl(cfg, id)[|cfg.baseUrl|..], '/') == ["", "v1", "wallets", id, "rpc"]
  {
    UrlParts(cfg, id);
    SplitJoin(["", "v1", "users", id], '/');
    SplitJoin(["", "v1", "users", id, "wallets"], '/');
    SplitJoin(["", "v1", "wallets", id, "rpc"], '/');
  }

  /** Different ids have different addresses. */
  lemma UrlsDistinct(cfg: Config, id: string, id': string)
    ensures UserUrl(cfg, id) == UserUrl(cfg, id') <==> id == id'
    ensures WalletsUrl(cfg, id) == WalletsUrl(cfg, id') <==> id == id'
    ensures RpcUrl(cfg, id) == RpcUrl(cfg, id') <==> id == id'
  {
    SameMiddle(cfg.baseUrl + "/v1/users/", id, id', "");
    SameMiddle(cfg.baseUrl + "/v1/users/", id, id', "/wallets");
    SameMiddle(cfg.baseUrl + "/v1/wallets/", id, id', "/rpc");
    assert UserUrl(cfg, id) == cfg.baseUrl + "/v1/users/" + id + "" && UserUrl(cfg, id') == cfg.baseUrl + "/v1/users/" + id' + "";
  }

  lemma SameMiddle(front: string, a: string, b: string, back: string)
    ensures front + a + back == front + b + back <==> a == b
  {
    if front + a + back == front + b + back {
      assert |a| == |b|;
      assert a == (front + a + back)[|front|..|front| + |a|] && b == (front + b + back)[|front|..|front| + |b|];
    }
  }

  function SentIf<T>(r: Reply<T>, request: Request): seq<Request> {
    if r.NotBuilt? then [] else [request]
  }

  /** prepSigningTxRequest; built says whether the HTTP request could be made. */
  function Prepare(cfg: Config, body: SignRequest, walletId: string, built: bool): Option<Rpc> {
    var url := RpcUrl(cfg, walletId);
    if !built then None
    else
      match cfg.authorize(body, "POST", url)
      case None => None
      case Some(signature) => Some(Rpc(walletId, url, body, signature))
  }

  /** The RPC for a resolved user, or why there is none. */
  function Pick(cfg: Config, user: User, body: SignRequest, built: bool): Result<Rpc, HttpError> {
    match EthWallet(user.accounts)
    case None => Err(HttpError(400, "user does not have an delegated eth wallet"))
    case Some(w) =>
      if w.walletId == "" then Err(HttpError(400, "user does not have an delegated eth wallet"))
      else
        match Prepare(cfg, body, w.walletId, built)
        case None => Err(INTERNAL)
        case Some(rpc) => Ok(rpc)
  }

  /** createUserWalletsIfNotExists, once Privy has answered the create request. */
  function Provision(user: User, create: Reply<Listed>): Result<User, HttpError> {
    if !create.Body? then Err(ReplyError(create))
    else
      match FirstListed(create.value)
      case Err(e) => Err(e)
      case Ok(w) => Ok(user.(accounts := user.accounts + [w]))
  }

  // ---- One call on its own ----------------------------------------------------------------

  /** All that the outside world answers in the course of one call. */
  datatype World = World(get: Reply<User>, create: Reply<Listed>, built: bool, reply: Reply<string>)

  datatype Response = Signed(signature: string) | Found(user: User) | Failed(error: HttpError)

  datatype Looked = Looked(cache: map<string, User>, result: Result<User, HttpError>, sent: seq<Request>)

  datatype Served = Served(cache: map<string, User>, response: Response, sent: seq<Request>)

  function LookupSpec(cfg: Config, cache: map<string, User>, id: string, w: World): Looked {
    if id in cache then Looked(cache, Ok(cache[id]), [])
    else
      var got := SentIf(w.get, GetUser(UserUrl(cfg, id)));
      if !w.get.Body? then Looked(cache, Err(ReplyError(w.get)), got)
      else if EthWallet(w.get.value.accounts).Some? then Looked(cache[id := w.get.value], Ok(w.get.value), got)
      else
        var sent := got + SentIf(w.create, CreateWallet(WalletsUrl(cfg, id)));
        match Provision(w.get.value, w.create)
        case Err(e) => Looked(cache, Err(e), sent)
        case Ok(user) => Looked(cache[id := user], Ok(user), sent)
  }

  function ReplyResponse(reply: Reply<string>): Response {
    if reply.Body? then Signed(reply.value) else Failed(ReplyError(reply))
  }

  /** What follows the lookup. */
  function ServeLooked(cfg: Config, call: Call, looked: Looked, w: World): Served
    requires call.handler != UserLookup ==> call.body.Some?
  {
    match looked.result
    case Err(e) => Served(looked.cache, Failed(e), looked.sent)
    case Ok(user) =>
      if call.handler == UserLookup then Served(looked.cache, Found(user), looked.sent)
      else
        match Pick(cfg, user, call.body.value, w.built)
        case Err(e) => Served(looked.cache, Failed(e), looked.sent)
        case Ok(rpc) => Served(looked.cache, ReplyResponse(w.reply), looked.sent + [WalletRpc(rpc)])
  }

  function ServeSpec(cfg: Config, cache: map<string, User>, call: Call, w: World): Served
    requires WellFormedCall(call)
  {
    match Admit(cfg, call)
    case Err(e) => Served(cache, Failed(e), [])
    case Ok(id) => ServeLooked(cfg, call, LookupSpec(cfg, cache, id, w), w)
  }

  /** The status and message that a failed exchange with Privy gives the caller. */
  lemma ReplyErrors<T>(reply: Reply<T>)
    requires !reply.Body?
    ensures ReplyError(reply).code == if reply.BadStatus? && !reply.body.ReadFailed? then reply.code else 500
    ensures ReplyError(reply).message ==
            if reply.BadStatus? && reply.body.Json? then reply.body.error
            else if reply.BadStatus? && reply.body.NotJson? then "Unable to parse Privy Error"
            else "Internal Server Error"
  {
  }

  /**
   * A lookup succeeds exactly on a hit, or when the record is fetched and has a wallet or one is
   * created and listed; what it returns is then cached, and a failure caches nothing. It fetches
   * this id's record, and asks for a wallet for this id, only as far as needed.
   */
  lemma LookupMeans(cfg: Config, cache: map<string, User>, id: string, w: World)
    ensures var l := LookupSpec(cfg, cache, id, w);
            && (l.result.Ok? <==> id in cache || (w.get.Body? && (EthWallet(w.get.value.accounts).Some? || (w.create.Body? && FirstListed(w.create.value).Ok?))))
            && (l.result.Ok? ==> l.cache == cache[id := l.result.value] && (id in cache ==> l.result.value == cache[id]))
            && (l.result.Ok? && id !in cache ==> EthWallet(l.result.value.accounts).Some? && w.get.value.accounts <= l.result.value.accounts)
            && (l.result.Err? ==> l.cache == cache)
            && (l.sent != [] <==> id !in cache && !w.get.NotBuilt?)
            && (l.sent != [] ==> l.sent[0] == GetUser(cfg.baseUrl + Join(["", "v1", "users", id], "/")))
            && (|l.sent| > 1 <==> id !in cache && w.get.Body? && EthWallet(w.get.value.accounts).None? && !w.create.NotBuilt?)
            && (|l.sent| > 1 ==> l.sent[1..] == [CreateWallet(cfg.baseUrl + Join(["", "v1", "users", id, "wallets"], "/"))])
  {
    UrlParts(cfg, id);
    if w.get.Body? && w.create.Body? && FirstListed(w.create.value).Ok? {
      FirstListedIs(w.create.value);
      if EthWallet(w.get.value.accounts).None? {
        EthWalletAppendOne(w.get.value.accounts, FirstListed(w.create.value).value);
      }
    }
    if id in cache {
      assert cache == cache[id := cache[id]];
    }
  }

  /**
   * Which error a failed lookup has: that of the exchange that failed, or 500 if the create response
   * lists no wallet, without a message if an empty entry comes first.
   */
  lemma LookupErrors(cfg: Config, cache: map<string, User>, id: string, w: World)
    requires id !in cache
    ensures var result := LookupSpec(cfg, cache, id, w).result;
            && (!w.get.Body? ==> result == Err(ReplyError(w.get)))
            && (w.get.Body? && EthWallet(w.get.value.accounts).None? && !w.create.Body? ==> result == Err(ReplyError(w.create)))
            && (w.get.Body? && EthWallet(w.get.value.accounts).None? && w.create.Body? && FirstListed(w.create.value).Err? ==>
                 result == Err(HttpError(500, if None in w.create.value then "" else "Internal Server Error")))
  {
    if w.create.Body? && FirstListed(w.create.value).Err? {
      NothingListed(w.create.value);
    }
  }

  lemma {:induction false} NothingListed(listed: Listed)
    requires FirstListed(listed).Err?
    ensures FirstListed(listed).error == HttpError(500, if None in listed then "" else "Internal Server Error")
  {
    if listed != [] && listed[0].Some? {
      NothingListed(listed[1..]);
      assert listed == [listed[0]] + listed[1..];
    }
  }

  /** What it takes for a call to have an RPC sent, once its user is found. */
  predicate CanSign(cfg: Config, user: User, body: SignRequest, built: bool) {
    && EthWallet(user.accounts).Some? && EthWallet(user.accounts).value.walletId != "" && built
    && cfg.authorize(body, "POST", cfg.baseUrl + Join(["", "v1", "wallets", EthWallet(user.accounts).value.walletId, "rpc"], "/")).Some?
  }

  /**
   * A signing call has an RPC sent exactly when it is admitted, its user is found with a wallet, and
   * the request can be built and authorized; it is then answered with the signature that Privy
   * returns for this RPC, or with Privy's error.
   */
  lemma SignsExactly(cfg: Config, cache: map<string, User>, call: Call, w: World)
    requires WellFormedCall(call) && call.handler != UserLookup
    ensures var served := ServeSpec(cfg, cache, call, w);
            var signs := Admit(cfg, call).Ok? && LookupSpec(cfg, cache, Admit(cfg, call).value, w).result.Ok?
                         && CanSign(cfg, LookupSpec(cfg, cache, Admit(cfg, call).value, w).result.value, call.body.value, w.built);
            && (signs <==> exists i :: 0 <= i < |served.sent| && served.sent[i].WalletRpc?)
            && (signs ==> served.response == if w.reply.Body? then Signed(w.reply.value) else Failed(ReplyError(w.reply)))
            && (!signs ==> served.response.Failed?)
            && (Admit(cfg, call).Err? ==> served.response == Failed(Admit(cfg, call).error) && served.sent == [] && served.cache == cache)
            && (Admit(cfg, call).Ok? && LookupSpec(cfg, cache, Admit(cfg, call).value, w).result.Err? ==>
                 served.response == Failed(LookupSpec(cfg, cache, Admit(cfg, call).value, w).result.error))
  {
    if Admit(cfg, call).Ok? {
      var looked := LookupSpec(cfg, cache, Admit(cfg, call).value, w);
      LookupMeans(cfg, cache, Admit(cfg, call).value, w);
      assert forall i | 0 <= i < |looked.sent| :: !looked.sent[i].WalletRpc?;
      SignsLooked(cfg, call, looked, w);
    }
  }

  /** A lookup call is answered with its user, or the error of its admission or of the lookup, and sends no RPC. */
  lemma LookupAnswered(cfg: Config, cache: map<string, User>, call: Call, w: World, user: User)
    requires WellFormedCall(call) && call.handler == UserLookup
    ensures var served := ServeSpec(cfg, cache, call, w);
            && (served.response == Found(user) <==>
                 Admit(cfg, call).Ok? && LookupSpec(cfg, cache, Admit(cfg, call).value, w).result == Ok(user))
            && (served.response.Found? || served.response.Failed?)
            && (Admit(cfg, call).Err? ==> served.response == Failed(Admit(cfg, call).error) && served.sent == [] && served.cache == cache)
            && (Admit(cfg, call).Ok? && LookupSpec(cfg, cache, Admit(cfg, call).value, w).result.Err? ==>
                 served.response == Failed(LookupSpec(cfg, cache, Admit(cfg, call).value, w).result.error))
            && forall i | 0 <= i < |served.sent| :: !served.sent[i].WalletRpc?
  {
    if Admit(cfg, call).Ok? {
      LookupMeans(cfg, cache, Admit(cfg, call).value, w);
    }
  }

  /** A signing call whose user is found gets 400 without a wallet, and 500 if its request cannot be made or authorized. */
  lemma CannotSign(cfg: Config, call: Call, looked: Looked, w: World)
    requires call.handler != UserLookup && call.body.Some? && looked.result.Ok? && !CanSign(cfg, looked.result.value, call.body.value, w.built)
    ensures var wallet := EthWallet(looked.result.value.accounts);
            ServeLooked(cfg, call, looked, w) == Served(looked.cache, Failed(
              if wallet.None? || wallet.value.walletId == "" then HttpError(400, "user does not have an delegated eth wallet")
              else HttpError(500, "Internal Server Error")), looked.sent)
  {
    if EthWallet(looked.result.value.accounts).Some? {
      UrlParts(cfg, EthWallet(looked.result.value.accounts).value.walletId);
    }
  }

  lemma SignsLooked(cfg: Config, call: Call, looked: Looked, w: World)
    requires call.handler != UserLookup && call.body.Some?
    requires forall i | 0 <= i < |looked.sent| :: !looked.sent[i].WalletRpc?
    ensures var served := ServeLooked(cfg, call, looked, w);
            var signs := looked.result.Ok? && CanSign(cfg, looked.result.value, call.body.value, w.built);
            && (signs <==> exists i :: 0 <= i < |served.sent| && served.sent[i].WalletRpc?)
            && (signs ==> served.response == if w.reply.Body? then Signed(w.reply.value) else Failed(ReplyError(w.reply)))
            && (!signs ==> served.response.Failed?)
  {
    if looked.result.Ok? && EthWallet(looked.result.value.accounts).Some? {
      UrlParts(cfg, EthWallet(looked.result.value.accounts).value.walletId);
      if CanSign(cfg, looked.result.value, call.body.value, w.built) {
        assert ServeLooked(cfg, call, looked, w).sent[|looked.sent|].WalletRpc?;
      }
    }
  }

  class PrivyClient {
    const cfg: Config
    var userCache: map<string, User>
    var sent: seq<Request>

    constructor (cfg: Config)
      ensures this.cfg == cfg && userCache == map[] && sent == []
    {
      this.cfg, userCache, sent := cfg, map[], [];
    }

    method CreateUserWalletsIfNotExists(user: User, id: string, w: World) returns (r: Result<User, HttpError>)
      modifies this`sent
      ensures r == if EthWallet(user.accounts).Some? then Ok(user) else Provision(user, w.create)
      ensures sent == old(sent) + if EthWallet(user.accounts).Some? then [] else SentIf(w.create, CreateWallet(WalletsUrl(cfg, id)))
    {
      var existing := FindEthWallet(user.accounts);
      if existing.Some? {
        return Ok(user);
      }
      if w.create.NotBuilt? {
        return Err(INTERNAL);
      }
      sent := sent + [CreateWallet(cfg.baseUrl + "/v1/users/" + id + "/wallets")];
      if !w.create.Body? {
        return Err(ReplyError(w.create));
      }
      var created := FindListed(w.create.value);
      if created.Err? {
        return Err(created.error);
      }
      return Ok(User(user.privyId, user.accounts + [created.value]));
    }

    method GetUser(id: string, w: World) returns (r: Result<User, HttpError>)
      modifies this
      ensures var looked := LookupSpec(cfg, old(userCache), id, w);
              userCache == looked.cache && r == looked.result && sent == old(sent) + looked.sent
    {
      if id in userCache {
        return Ok(userCache[id]);
      }
      if w.get.NotBuilt? {
        return Err(INTERNAL);
      }
      sent := sent + [Request.GetUser(cfg.baseUrl + "/v1/users/" + id)];
      if !w.get.Body? {
        return Err(ReplyError(w.get));
      }
      r := CreateUserWalletsIfNotExists(w.get.value, id, w);
      if r.Ok? {
        userCache := userCache[id := r.value];
      }
    }

    method ExecutePrivySigningRequest(body: SignRequest, id: string, w: World) returns (response: Response)
      modifies this
      ensures var looked := LookupSpec(cfg, old(userCache), id, w);
              && userCache == looked.cache
              && match looked.result {
                case Err(e) => response == Failed(e) && sent == old(sent) + looked.sent
                case Ok(user) =>
                  match Pick(cfg, user, body, w.built)
                  case Err(e) => response == Failed(e) && sent == old(sent) + looked.sent
                  case Ok(rpc) => response == ReplyResponse(w.reply) && sent == old(sent) + looked.sent + [WalletRpc(rpc)]
              }
    {
      var found := GetUser(id, w);
      if found.Err? {
        return Failed(found.error);
      }
      var wallet := FindEthWallet(found.value.accounts);
      if wallet.None? || wallet.value.walletId == "" {
        return Failed(HttpError(400, "user does not have an delegated eth wallet"));
      }
      var rpc := Prepare(cfg, body, wallet.value.walletId, w.built);
      if rpc.None? {
        return Failed(INTERNAL);
      }
      sent := sent + [WalletRpc(rpc.value)];
      if !w.reply.Body? {
        return Failed(ReplyError(w.reply));
      }
      return Signed(w.reply.value);
    }

    /** UserEthSecp256k1SignTxHandler with UserEthSecp256k1Sign. */
    method HandleUserSign(call: Call, w: World) returns (response: Response)
      requires WellFormedCall(call) && call.handler == UserSign
      modifies this
      ensures var s := ServeSpec(cfg, old(userCache), call, w);
              userCache == s.cache && response == s.response && sent == old(sent) + s.sent
    {
      if call.auth == "" {
        return Failed(HttpError(401, "Unauthorized user"));
      }
      if call.body.None? {
        return Failed(HttpError(400, "tx data is invalid"));
      }
      if !ValidTxRequest(call.body.value) {
        return Failed(HttpError(400, "tx data is invalid"));
      }
      var id := ExtractPrivyId(cfg.auth, call.auth, call.now);
      if id.None? {
        return Failed(HttpError(401, "Unauthorized User"));
      }
      response := ExecutePrivySigningRequest(call.body.value, id.value, w);
    }

    method HandleGetUser(call: Call, w: World) returns (response: Response)
      requires WellFormedCall(call) && call.handler == UserLookup
      modifies this
      ensures var s := ServeSpec(cfg, old(userCache), call, w);
              userCache == s.cache && response == s.response && sent == old(sent) + s.sent
    {
      if call.auth == "" {
        return Failed(HttpError(401, "Unauthorized user"));
      }
      var id := ExtractPrivyId(cfg.auth, call.auth, call.now);
      if id.None? {
        return Failed(HttpError(401, "Unauthorized User"));
      }
      var found := GetUser(id.value, w);
      if found.Err? {
        return Failed(found.error);
      }
      return Found(found.value);
    }

    /** AxalEthSecp256k1SignTxHandler with AxalEthSecp256k1Sign. */
    method HandleAxalSign(call: Call, w: World) returns (response: Response)
      requires WellFormedCall(call) && call.handler == AxalSign
      modifies this
      ensures var s := ServeSpec(cfg, old(userCache), call, w);
              userCache == s.cache && response == s.response && sent == old(sent) + s.sent
    {
      if call.auth == "" {
        return Failed(HttpError(401, "Missing HMAC signature"));
      }
      if call.body.None? {
        return Failed(HttpError(400, "tx data is invalid"));
      }
      if !ValidTxRequest(call.body.value) {
        return Failed(HttpError(400, "tx data is invalid"));
      }
      if !VerifyAxalSignature(cfg.auth, call.body.value.hash, call.auth) {
        return Failed(HttpError(401, "Unauthorized User - Invalid HMAC"));
      }
      response := ExecutePrivySigningRequest(call.body.value, call.body.value.privyId, w);
    }
  }

  // ---- Many calls at once ---------------------------------------------------------------------

  /** Where a call is between two of its visible steps. */
  datatype Phase =
    | Fetching
    | Creating(user: User)
    | Storing(user: User)
    | Resolved(user: User)
    | AwaitingRpc
    | Finished(response: Response)

  datatype Flight = Flight(call: Call, id: string, phase: Phase)

  /**
   * cache is shared; record is what Privy holds for each id. The rest is history: answers to GET
   * requests, wallets listed in create responses, RPCs sent, and, for each create request that really
   * added to the delegated ethereum wallets of an id, that id.
   */
  datatype State = State(
    cache: map<string, User>,
    record: map<string, seq<LinkedAccount>>,
    flights: map<nat, Flight>,
    fetched: set<(string, User)>,
    listed: set<(string, LinkedAccount)>,
    rpcs: seq<(nat, Rpc)>,
    provisioned: seq<string>)

  /**
   * Steps of call t, and the cache losing an entry to age or capacity. A create request leaves the id
   * with the record after, or has no effect.
   */
  datatype Event =
    | Arrive(t: nat, call: Call)
    | Fetched(t: nat, get: Reply<User>)
    | Created(t: nat, after: Option<seq<LinkedAccount>>, create: Reply<Listed>)
    | Stored(t: nat)
    | Picked(t: nat, built: bool)
    | Replied(t: nat, reply: Reply<string>)
    | Dropped(id: string)

  function Record(s: State, id: string): seq<LinkedAccount> {
    if id in s.record then s.record[id] else []
  }

  predicate Enabled(s: State, e: Event) {
    match e
    case Arrive(t, call) => t !in s.flights && WellFormedCall(call)
    case Fetched(t, _) => t in s.flights && s.flights[t].phase.Fetching?
    case Created(t, after, create) => t in s.flights && s.flights[t].phase.Creating? && (create.NotBuilt? ==> after.None?)
    case Stored(t) => t in s.flights && s.flights[t].phase.Storing?
    case Picked(t, _) => t in s.flights && s.flights[t].phase.Resolved?
                         && (s.flights[t].call.handler != UserLookup ==> s.flights[t].call.body.Some?)
    case Replied(t, reply) => t in s.flights && s.flights[t].phase.AwaitingRpc? && !reply.NotBuilt?
    case Dropped(_) => true
  }

  function Move(s: State, t: nat, phase: Phase): State
    requires t in s.flights
  {
    s.(flights := s.flights[t := s.flights[t].(phase := phase)])
  }

  function Arrived(cfg: Config, s: State, call: Call): Flight
    requires WellFormedCall(call)
  {
    match Admit(cfg, call)
    case Err(error) => Flight(call, "", Finished(Failed(error)))
    case Ok(id) => Flight(call, id, if id in s.cache then Resolved(s.cache[id]) else Fetching)
  }

  function AfterFetch(get: Reply<User>): Phase {
    if !get.Body? then Finished(Failed(ReplyError(get)))
    else if EthWallet(get.value.accounts).Some? then Storing(get.value)
    else Creating(get.value)
  }

  function AfterCreate(user: User, create: Reply<Listed>): Phase {
    match Provision(user, create)
    case Err(error) => Finished(Failed(error))
    case Ok(extended) => Storing(extended)
  }

  /** What a create request did at Privy, and what its answer listed. */
  function Recorded(s: State, id: string, after: Option<seq<LinkedAccount>>, create: Reply<Listed>): State {
    s.(record := if after.None? then s.record else s.record[id := after.value],
       provisioned := if after.Some? && Wallets(after.value) > Wallets(Record(s, id)) then s.provisioned + [id] else s.provisioned,
       listed := if create.Body? then s.listed + set a | a in create.value && a.Some? :: (id, a.value) else s.listed)
  }

  /** The end of a call's lookup: the response, or the RPC to send. */
  function AfterPick(cfg: Config, flight: Flight, built: bool): (Phase, Option<Rpc>)
    requires flight.phase.Resolved? && (flight.call.handler != UserLookup ==> flight.call.body.Some?)
  {
    if flight.call.handler == UserLookup then (Finished(Found(flight.phase.user)), None)
    else
      match Pick(cfg, flight.phase.user, flight.call.body.value, built)
      case Err(error) => (Finished(Failed(error)), None)
      case Ok(rpc) => (AwaitingRpc, Some(rpc))
  }

  function Step(cfg: Config, s: State, e: Event): State
    requires Enabled(s, e)
  {
    match e
    case Arrive(t, call) => s.(flights := s.flights[t := Arrived(cfg, s, call)])
    case Fetched(t, get) =>
      Move(s.(fetched := if get.Body? then s.fetched + {(s.flights[t].id, get.value)} else s.fetched), t, AfterFetch(get))
    case Created(t, after, create) =>
      Move(Recorded(s, s.flights[t].id, after, create), t, AfterCreate(s.flights[t].phase.user, create))
    case Stored(t) =>
      var flight := s.flights[t];
      Move(s.(cache := s.cache[flight.id := flight.phase.user]), t, Resolved(flight.phase.user))
    case Picked(t, built) =>
      var (phase, rpc) := AfterPick(cfg, s.flights[t], built);
      Move(s.(rpcs := if rpc.None? then s.rpcs else s.rpcs + [(t, rpc.value)]), t, phase)
    case Replied(t, reply) => Move(s, t, Finished(ReplyResponse(reply)))
    case Dropped(id) => s.(cache := s.cache - {id})
  }

  /** The process starts with an empty cache and no calls; Privy's records are arbitrary. */
  predicate Initial(s: State) {
    s.cache == map[] && s.flights == map[] && s.fetched == {} && s.listed == {} && s.rpcs == [] && s.provisioned == []
  }

  ghost predicate Run(cfg: Config, s: State, events: seq<Event>, s': State)
    decreases events
  {
    if events == [] then s == s'
    else Enabled(s, events[0]) && Run(cfg, Step(cfg, s, events[0]), events[1..], s')
  }

  // ---- Safety in every run, whatever Privy answers ------------------------------------------------

  /** The user is a record fetched for this id, extended at most by a wallet a create response listed for it. */
  ghost predicate Grounded(s: State, id: string, user: User) {
    exists f :: (id, f) in s.fetched && Extends(s, id, f, user)
  }

  ghost predicate Extends(s: State, id: string, f: User, user: User) {
    && user.privyId == f.privyId
    && (user.accounts == f.accounts
        || (exists a :: (id, a) in s.listed && IsDelegatedEth(a) && user.accounts == f.accounts + [a]))
  }

  ghost predicate GoodUser(s: State, id: string, user: User) {
    EthWallet(user.accounts).Some? && Grounded(s, id, user)
  }

  ghost predicate CacheGood(s: State) {
    forall id | id in s.cache :: GoodUser(s, id, s.cache[id])
  }

  ghost predicate FlightGood(cfg: Config, s: State, t: nat)
    requires t in s.flights
  {
    var flight := s.flights[t];
    && WellFormedCall(flight.call)
    && (Admit(cfg, flight.call) == Ok(flight.id) || (Admit(cfg, flight.call).Err? && flight.phase.Finished?))
    && (flight.phase.Creating? ==> (flight.id, flight.phase.user) in s.fetched && EthWallet(flight.phase.user.accounts).None?)
    && (flight.phase.Storing? || flight.phase.Resolved? ==> GoodUser(s, flight.id, flight.phase.user))
  }

  ghost predicate FlightsGood(cfg: Config, s: State) {
    forall t | t in s.flights :: FlightGood(cfg, s, t)
  }

  /** What entitles an RPC to be sent. */
  ghost predicate Justified(cfg: Config, s: State, t: nat, rpc: Rpc) {
    && t in s.flights
    && var call, id := s.flights[t].call, s.flights[t].id;
    && WellFormedCall(call) && call.handler != UserLookup && call.auth != ""
    && call.body == Some(rpc.body) && ValidTxRequest(rpc.body)
    && Authenticate(cfg, call) == Ok(id)
    && rpc.walletId != "" && rpc.url == cfg.baseUrl + Join(["", "v1", "wallets", rpc.walletId, "rpc"], "/")
    && cfg.authorize(rpc.body, "POST", rpc.url) == Some(rpc.signature)
    && exists user :: Grounded(s, id, user) && EthWallet(user.accounts).Some? && EthWallet(user.accounts).value.walletId == rpc.walletId
  }

  ghost predicate RpcsGood(cfg: Config, s: State) {
    && (forall i | 0 <= i < |s.rpcs| :: Justified(cfg, s, s.rpcs[i].0, s.rpcs[i].1))
    && (forall i | 0 <= i < |s.rpcs| :: s.rpcs[i].0 in s.flights
          && (s.flights[s.rpcs[i].0].phase.AwaitingRpc? || s.flights[s.rpcs[i].0].phase.Finished?))
    && (forall i, j | 0 <= i < j < |s.rpcs| :: s.rpcs[i].0 != s.rpcs[j].0)
  }

  ghost predicate Safe(cfg: Config, s: State) {
    CacheGood(s) && FlightsGood(cfg, s) && RpcsGood(cfg, s)
  }

  /** The history only grows, so what was grounded stays so. */
  predicate HistoryGrows(s: State, s': State) {
    s.fetched <= s'.fetched && s.listed <= s'.listed
  }

  lemma GroundedStays(s: State, s': State, id: string, user: User)
    requires HistoryGrows(s, s') && Grounded(s, id, user)
    ensures Grounded(s', id, user)
  {
    var f :| (id, f) in s.fetched && Extends(s, id, f, user);
    assert Extends(s', id, f, user);
  }

  lemma StepHistory(cfg: Config, s: State, e: Event)
    requires Enabled(s, e)
    ensures var s' := Step(cfg, s, e);
            && HistoryGrows(s, s')
            && forall t | t in s.flights :: t in s'.flights && s'.flights[t].call == s.flights[t].call && s'.flights[t].id == s.flights[t].id
  {
    match e
    case Arrive(_, _) =>
    case Fetched(_, _) =>
    case Created(_, _, _) =>
    case Stored(_) =>
    case Picked(_, _) =>
    case Replied(_, _) =>
    case Dropped(_) =>
  }

  lemma JustifiedStays(cfg: Config, s: State, e: Event, t: nat, rpc: Rpc)
    requires Enabled(s, e) && Justified(cfg, s, t, rpc)
    ensures Justified(cfg, Step(cfg, s, e), t, rpc)
  {
    StepHistory(cfg, s, e);
    var id := s.flights[t].id;
    var user :| Grounded(s, id, user) && EthWallet(user.accounts).Some? && EthWallet(user.accounts).value.walletId == rpc.walletId;
    GroundedStays(s, Step(cfg, s, e), id, user);
  }

  lemma FlightStays(cfg: Config, s: State, s': State, t: nat)
    requires HistoryGrows(s, s') && t in s.flights && FlightGood(cfg, s, t)
    requires t in s'.flights && s'.flights[t] == s.flights[t]
    ensures FlightGood(cfg, s', t)
  {
    var flight := s.flights[t];
    if flight.phase.Storing? || flight.phase.Resolved? {
      GroundedStays(s, s', flight.id, flight.phase.user);
    }
  }

  lemma CacheStays(s: State, s': State)
    requires HistoryGrows(s, s') && CacheGood(s)
    requires forall id | id in s'.cache :: id in s.cache && s'.cache[id] == s.cache[id]
    ensures CacheGood(s')
  {
    forall id | id in s'.cache ensures GoodUser(s', id, s'.cache[id]) {
      GroundedStays(s, s', id, s.cache[id]);
    }
  }

  /** The call of this event; Dropped belongs to none. */
  function CallOf(e: Event): Option<nat> {
    match e
    case Arrive(t, _) => Some(t)
    case Fetched(t, _) => Some(t)
    case Created(t, _, _) => Some(t)
    case Stored(t) => Some(t)
    case Picked(t, _) => Some(t)
    case Replied(t, _) => Some(t)
    case Dropped(_) => None
  }

  lemma MovedFlightGood(cfg: Config, s: State, e: Event)
    requires Enabled(s, e) && Safe(cfg, s) && CallOf(e).Some?
    ensures FlightGood(cfg, Step(cfg, s, e), CallOf(e).value)
  {
    var s' := Step(cfg, s, e);
    var t := CallOf(e).value;
    StepHistory(cfg, s, e);
    match e {
      case Arrive(_, call) =>
        if Admit(cfg, call).Ok? && Admit(cfg, call).value in s.cache {
          GroundedStays(s, s', Admit(cfg, call).value, s.cache[Admit(cfg, call).value]);
        }
      case Fetched(_, get) =>
        assert FlightGood(cfg, s, t);
        if get.Body? {
          assert Extends(s', s.flights[t].id, get.value, get.value);
          assert Grounded(s', s.flights[t].id, get.value);
        }
      case Created(_, after, create) =>
        assert FlightGood(cfg, s, t);
        var id, user := s.flights[t].id, s.flights[t].phase.user;
        if create.Body? && FirstListed(create.value).Ok? {
          var w := FirstListed(create.value).value;
          FirstListedIs(create.value);
          assert Some(w) in create.value;
          assert (id, w) in s'.listed;
          EthWalletAppendOne(user.accounts, w);
          assert Extends(s', id, user, user.(accounts := user.accounts + [w]));
          assert Grounded(s', id, user.(accounts := user.accounts + [w]));
        }
      case Stored(_) =>
        assert FlightGood(cfg, s, t);
        GroundedStays(s, s', s.flights[t].id, s.flights[t].phase.user);
      case Picked(_, _) =>
        assert FlightGood(cfg, s, t);
      case Replied(_, _) =>
        assert FlightGood(cfg, s, t);
    }
  }

  lemma StepKeepsFlights(cfg: Config, s: State, e: Event)
    requires Enabled(s, e) && Safe(cfg, s)
    ensures FlightsGood(cfg, Step(cfg, s, e))
  {
    var s' := Step(cfg, s, e);
    StepHistory(cfg, s, e);
    forall t | t in s'.flights ensures FlightGood(cfg, s', t) {
      if CallOf(e) == Some(t) {
        MovedFlightGood(cfg, s, e);
      } else {
        assert t in s.flights && s'.flights[t] == s.flights[t];
        FlightStays(cfg, s, s', t);
      }
    }
  }

  lemma StepKeepsCache(cfg: Config, s: State, e: Event)
    requires Enabled(s, e) && Safe(cfg, s)
    ensures CacheGood(Step(cfg, s, e))
  {
    var s' := Step(cfg, s, e);
    StepHistory(cfg, s, e);
    if e.Stored? {
      assert FlightGood(cfg, s, e.t);
      forall id | id in s'.cache ensures GoodUser(s', id, s'.cache[id]) {
        GroundedStays(s, s', id, s'.cache[id]);
      }
    } else {
      CacheStays(s, s');
    }
  }

  lemma NewRpcJustified(cfg: Config, s: State, e: Event)
    requires Enabled(s, e) && e.Picked? && FlightGood(cfg, s, e.t)
    ensures var s' := Step(cfg, s, e);
            s'.rpcs == s.rpcs || exists rpc :: s'.rpcs == s.rpcs + [(e.t, rpc)] && Justified(cfg, s', e.t, rpc) && s'.flights[e.t].phase.AwaitingRpc?
  {
    var s' := Step(cfg, s, e);
    var flight := s.flights[e.t];
    if s'.rpcs != s.rpcs {
      var rpc := Pick(cfg, flight.phase.user, flight.call.body.value, e.built).value;
      GroundedStays(s, s', flight.id, flight.phase.user);
      UrlParts(cfg, rpc.walletId);
      assert Justified(cfg, s', e.t, rpc);
    }
  }

  /** A call with an RPC behind it stays past the point of sending. */
  lemma SenderStays(cfg: Config, s: State, e: Event, t: nat)
    requires Enabled(s, e) && t in s.flights && (s.flights[t].phase.AwaitingRpc? || s.flights[t].phase.Finished?)
    ensures var s' := Step(cfg, s, e); t in s'.flights && (s'.flights[t].phase.AwaitingRpc? || s'.flights[t].phase.Finished?)
    ensures e.Picked? ==> e.t != t
  {
  }

  lemma OldRpcsStay(cfg: Config, s: State, e: Event, i: nat)
    requires Enabled(s, e) && RpcsGood(cfg, s) && i < |s.rpcs|
    ensures var s' := Step(cfg, s, e);
            var t := s.rpcs[i].0;
            && Justified(cfg, s', t, s.rpcs[i].1)
            && t in s'.flights && (s'.flights[t].phase.AwaitingRpc? || s'.flights[t].phase.Finished?)
            && (e.Picked? ==> e.t != t)
  {
    JustifiedStays(cfg, s, e, s.rpcs[i].0, s.rpcs[i].1);
    SenderStays(cfg, s, e, s.rpcs[i].0);
  }

  lemma RpcsAppend(cfg: Config, s: State, s': State, t: nat, rpc: Rpc)
    requires s'.rpcs == s.rpcs || s'.rpcs == s.rpcs + [(t, rpc)]
    requires forall i | 0 <= i < |s.rpcs| ::
               && Justified(cfg, s', s.rpcs[i].0, s.rpcs[i].1)
               && (s'.flights[s.rpcs[i].0].phase.AwaitingRpc? || s'.flights[s.rpcs[i].0].phase.Finished?)
               && (s'.rpcs != s.rpcs ==> s.rpcs[i].0 != t)
    requires forall i, j | 0 <= i < j < |s.rpcs| :: s.rpcs[i].0 != s.rpcs[j].0
    requires s'.rpcs != s.rpcs ==> Justified(cfg, s', t, rpc) && s'.flights[t].phase.AwaitingRpc?
    ensures RpcsGood(cfg, s')
  {
  }

  lemma StepKeepsRpcs(cfg: Config, s: State, e: Event)
    requires Enabled(s, e) && Safe(cfg, s)
    ensures RpcsGood(cfg, Step(cfg, s, e))
  {
    var s' := Step(cfg, s, e);
    forall i | 0 <= i < |s.rpcs|
      ensures Justified(cfg, s', s.rpcs[i].0, s.rpcs[i].1)
      ensures s'.flights[s.rpcs[i].0].phase.AwaitingRpc? || s'.flights[s.rpcs[i].0].phase.Finished?
      ensures e.Picked? ==> e.t != s.rpcs[i].0
    {
      OldRpcsStay(cfg, s, e, i);
    }
    if e.Picked? && s'.rpcs != s.rpcs {
      assert FlightGood(cfg, s, e.t);
      NewRpcJustified(cfg, s, e);
      var rpc :| s'.rpcs == s.rpcs + [(e.t, rpc)] && Justified(cfg, s', e.t, rpc);
      RpcsAppend(cfg, s, s', e.t, rpc);
    } else {
      assert s'.rpcs == s.rpcs;
      RpcsAppend(cfg, s, s', 0, Rpc("", "", UserRequest("", ""), ""));
    }
  }

  lemma {:induction false} RunIsSafe(cfg: Config, s: State, events: seq<Event>, s': State)
    requires Safe(cfg, s) && Run(cfg, s, events, s')
    ensures Safe(cfg, s')
    decreases events
  {
    if events != [] {
      StepKeepsCache(cfg, s, events[0]);
      StepKeepsFlights(cfg, s, events[0]);
      StepKeepsRpcs(cfg, s, events[0]);
      RunIsSafe(cfg, Step(cfg, s, events[0]), events[1..], s');
    }
  }

  /**
   * In every run, under any interleaving of calls and any answers: each wallet RPC belongs to exactly
   * one handler call that passed validation and its own authentication, carries that call's body, and
   * goes to the first delegated ethereum wallet of a user obtained for the authenticated id.
   */
  lemma SigningTraceSafety(cfg: Config, s: State, events: seq<Event>, s': State)
    requires Initial(s) && Run(cfg, s, events, s')
    ensures forall i | 0 <= i < |s'.rpcs| :: Justified(cfg, s', s'.rpcs[i].0, s'.rpcs[i].1)
    ensures forall i, j | 0 <= i < j < |s'.rpcs| :: s'.rpcs[i].0 != s'.rpcs[j].0
  {
    RunIsSafe(cfg, s, events, s');
  }

  /** In every run each cached user has a delegated ethereum wallet and was obtained for its key. */
  lemma CachedUsersHaveWallets(cfg: Config, s: State, events: seq<Event>, s': State)
    requires Initial(s) && Run(cfg, s, events, s')
    ensures forall id | id in s'.cache :: EthWallet(s'.cache[id].accounts).Some? && Grounded(s', id, s'.cache[id])
  {
    RunIsSafe(cfg, s, events, s');
  }

  /** Only a call whose lookup succeeded, or an expiring entry, changes the cache, and only at its own key. */
  lemma CacheChanges(cfg: Config, s: State, e: Event, id: string)
    requires Enabled(s, e)
    requires !(id in s.cache <==> id in Step(cfg, s, e).cache)
          || (id in s.cache && id in Step(cfg, s, e).cache && s.cache[id] != Step(cfg, s, e).cache[id])
    ensures e == Dropped(id) || (e.Stored? && s.flights[e.t].id == id && Step(cfg, s, e).flights[e.t].phase == Resolved(Step(cfg, s, e).cache[id]))
  {
  }

  /** An entry can be dropped at any time, and leaves the cache in no other way. */
  lemma CacheLoses(cfg: Config, s: State, e: Event, id: string)
    requires Enabled(s, e) && id in s.cache
    ensures Enabled(s, Dropped(id)) && Step(cfg, s, Dropped(id)).cache.Keys == s.cache.Keys - {id}
    ensures id !in Step(cfg, s, e).cache <==> e == Dropped(id)
  {
  }

  // ---- Refinement: the cache against an uncached lookup --------------------------------------------

  /** Privy answers truthfully: a fetch shows the record, a create response lists the new record. */
  predicate Honest(s: State, e: Event)
    requires Enabled(s, e)
  {
    match e
    case Fetched(t, Body(user)) => user.accounts == Record(s, s.flights[t].id)
    case Created(t, after, Body(listed)) => after.Some? && listed == Listing(after.value)
    case _ => true
  }

  /** The user leads to the same wallet as a fetch made now. */
  predicate Current(s: State, id: string, user: User) {
    EthWallet(user.accounts).Some? && EthWallet(user.accounts) == EthWallet(Record(s, id))
  }

  predicate FlightCurrent(s: State, flight: Flight) {
    && (flight.phase.Creating? ==> EthWallet(flight.phase.user.accounts).None?)
    && (flight.phase.Storing? || flight.phase.Resolved? ==> Current(s, flight.id, flight.phase.user))
  }

  predicate RpcCurrent(s: State, id: string, t: nat, rpc: Rpc) {
    && t in s.flights
    && (s.flights[t].id == id ==> EthWallet(Record(s, id)).Some? && EthWallet(Record(s, id)).value.walletId == rpc.walletId)
  }

  /** The wallet found through the cache, and that of every RPC sent for the id, is the one a fetch made now leads to. */
  ghost predicate Refines(s: State, id: string) {
    && (id in s.cache ==> Current(s, id, s.cache[id]))
    && (forall i | 0 <= i < |s.rpcs| :: RpcCurrent(s, id, s.rpcs[i].0, s.rpcs[i].1))
  }

  ghost predicate AllCurrent(s: State, id: string) {
    && Refines(s, id)
    && (forall t | t in s.flights && s.flights[t].id == id :: FlightCurrent(s, s.flights[t]))
  }

  /** The step leaves the choice of a wallet for this id alone, if there was one. */
  predicate KeepsChoice(s: State, e: Event, id: string)
    requires Enabled(s, e)
  {
    e.Created? && e.after.Some? && s.flights[e.t].id == id && EthWallet(Record(s, id)).Some? ==>
      EthWallet(e.after.value) == EthWallet(Record(s, id))
  }

  lemma ChoiceStays(cfg: Config, s: State, e: Event, id: string)
    requires Enabled(s, e) && KeepsChoice(s, e, id) && EthWallet(Record(s, id)).Some?
    ensures EthWallet(Record(Step(cfg, s, e), id)) == EthWallet(Record(s, id))
  {
  }

  lemma ProvisionedIsCurrent(user: User, accounts: seq<LinkedAccount>)
    requires EthWallet(user.accounts).None? && EthWallet(accounts).Some?
    ensures Provision(user, Body(Listing(accounts))).Ok?
    ensures EthWallet(Provision(user, Body(Listing(accounts))).value.accounts) == EthWallet(accounts)
  {
    EthWalletIs(accounts);
    FirstListedOf(accounts);
    EthWalletAppendOne(user.accounts, EthWallet(accounts).value);
  }

  lemma MovedFlightCurrent(cfg: Config, s: State, e: Event, id: string)
    requires Enabled(s, e) && Honest(s, e) && AllCurrent(s, id) && CallOf(e).Some?
    requires Step(cfg, s, e).flights[CallOf(e).value].id == id
    ensures FlightCurrent(Step(cfg, s, e), Step(cfg, s, e).flights[CallOf(e).value])
  {
    if e.Created? {
      assert FlightCurrent(s, s.flights[e.t]);
      if e.create.Body? {
        FirstListedOf(e.after.value);
        if EthWallet(e.after.value).Some? {
          ProvisionedIsCurrent(s.flights[e.t].phase.user, e.after.value);
        }
      }
    } else if !e.Arrive? {
      assert FlightCurrent(s, s.flights[CallOf(e).value]);
    }
  }

  lemma OtherFlightCurrent(cfg: Config, s: State, e: Event, id: string, t: nat)
    requires Enabled(s, e) && KeepsChoice(s, e, id) && AllCurrent(s, id)
    requires t in Step(cfg, s, e).flights && Step(cfg, s, e).flights[t].id == id && CallOf(e) != Some(t)
    ensures FlightCurrent(Step(cfg, s, e), Step(cfg, s, e).flights[t])
  {
    assert t in s.flights && Step(cfg, s, e).flights[t] == s.flights[t];
    assert FlightCurrent(s, s.flights[t]);
    if EthWallet(Record(s, id)).Some? {
      ChoiceStays(cfg, s, e, id);
    }
  }

  lemma CacheStaysCurrent(cfg: Config, s: State, e: Event, id: string)
    requires Enabled(s, e) && KeepsChoice(s, e, id) && AllCurrent(s, id)
    ensures var s' := Step(cfg, s, e); id in s'.cache ==> Current(s', id, s'.cache[id])
  {
    if EthWallet(Record(s, id)).Some? {
      ChoiceStays(cfg, s, e, id);
    }
    if e.Stored? && s.flights[e.t].id == id {
      assert FlightCurrent(s, s.flights[e.t]);
    }
  }

  lemma SentStaysCurrent(cfg: Config, s: State, e: Event, id: string, i: nat)
    requires Enabled(s, e) && KeepsChoice(s, e, id) && AllCurrent(s, id) && i < |Step(cfg, s, e).rpcs|
    ensures RpcCurrent(Step(cfg, s, e), id, Step(cfg, s, e).rpcs[i].0, Step(cfg, s, e).rpcs[i].1)
  {
    StepHistory(cfg, s, e);
    if EthWallet(Record(s, id)).Some? {
      ChoiceStays(cfg, s, e, id);
    }
    if i < |s.rpcs| {
      assert RpcCurrent(s, id, s.rpcs[i].0, s.rpcs[i].1);
    } else {
      assert s.flights[e.t].id == id ==> FlightCurrent(s, s.flights[e.t]);
    }
  }

  lemma StepKeepsCurrent(cfg: Config, s: State, e: Event, id: string)
    requires Enabled(s, e) && Honest(s, e) && KeepsChoice(s, e, id) && AllCurrent(s, id)
    ensures AllCurrent(Step(cfg, s, e), id)
  {
    var s' := Step(cfg, s, e);
    CacheStaysCurrent(cfg, s, e, id);
    forall i | 0 <= i < |s'.rpcs| ensures RpcCurrent(s', id, s'.rpcs[i].0, s'.rpcs[i].1) {
      SentStaysCurrent(cfg, s, e, id, i);
    }
    forall t | t in s'.flights && s'.flights[t].id == id ensures FlightCurrent(s', s'.flights[t]) {
      if CallOf(e) == Some(t) {
        MovedFlightCurrent(cfg, s, e, id);
      } else {
        OtherFlightCurrent(cfg, s, e, id, t);
      }
    }
  }

  // ---- Refinement when calls for an id do not overlap: wherever Privy puts new accounts -----------------

  /** No two calls for the id are under way in the same state. */
  predicate NoOverlap(s: State, id: string) {
    forall t, t' | t in s.flights && t' in s.flights && s.flights[t].id == id && s.flights[t'].id == id
      && !s.flights[t].phase.Finished? && !s.flights[t'].phase.Finished? :: t == t'
  }

  ghost predicate SequentialRun(cfg: Config, s: State, events: seq<Event>, s': State, id: string)
    decreases events
  {
    && NoOverlap(s, id)
    && if events == [] then s == s'
       else Enabled(s, events[0]) && Honest(s, events[0]) && SequentialRun(cfg, Step(cfg, s, events[0]), events[1..], s', id)
  }

  /** What a call saw that is about to create a wallet is still the record, and has none. */
  ghost predicate SeenIsRecord(s: State, id: string) {
    forall t | t in s.flights && s.flights[t].id == id && s.flights[t].phase.Creating? ::
      s.flights[t].phase.user.accounts == Record(s, id) && EthWallet(Record(s, id)).None?
  }

  lemma StepKeepsSeen(cfg: Config, s: State, e: Event, id: string)
    requires Enabled(s, e) && Honest(s, e) && NoOverlap(s, id) && SeenIsRecord(s, id)
    ensures SeenIsRecord(Step(cfg, s, e), id)
    ensures e.Created? && s.flights[e.t].id == id ==> EthWallet(Record(s, id)).None?
  {
    var s' := Step(cfg, s, e);
    forall t | t in s'.flights && s'.flights[t].id == id && s'.flights[t].phase.Creating?
      ensures s'.flights[t].phase.user.accounts == Record(s', id) && EthWallet(Record(s', id)).None?
    {
      if CallOf(e) != Some(t) {
        assert t in s.flights && s'.flights[t] == s.flights[t];
      }
    }
  }

  lemma {:induction false} SequentialKeepsCurrent(cfg: Config, s: State, events: seq<Event>, s': State, id: string)
    requires SequentialRun(cfg, s, events, s', id) && AllCurrent(s, id) && SeenIsRecord(s, id)
    ensures AllCurrent(s', id)
    decreases events
  {
    if events != [] {
      StepKeepsSeen(cfg, s, events[0], id);
      StepKeepsCurrent(cfg, s, events[0], id);
      SequentialKeepsCurrent(cfg, Step(cfg, s, events[0]), events[1..], s', id);
    }
  }

  /**
   * If an id's record changes only through the create requests of these calls, Privy's answers show
   * it, and calls for the id do not overlap, then in every reachable state the cache and every RPC
   * ever sent lead to the wallet that an uncached fetch would lead to now. A record that has a wallet
   * is then never changed, so it does not matter what a create request makes of the others.
   */
  lemma SequentialRefines(cfg: Config, s: State, events: seq<Event>, s': State, id: string)
    requires Initial(s) && SequentialRun(cfg, s, events, s', id)
    ensures Refines(s', id)
  {
    SequentialKeepsCurrent(cfg, s, events, s', id);
  }

  // ---- Refinement under any interleaving: what Privy must do with new accounts ------------------------

  /** Whether Privy may put the second record in the place of the first when it is asked for a wallet. */
  type Policy = (seq<LinkedAccount>, seq<LinkedAccount>) -> bool

  predicate Allowed(policy: Policy, s: State, e: Event)
    requires Enabled(s, e)
  {
    e.Created? && e.after.Some? ==> policy(Record(s, s.flights[e.t].id), e.after.value)
  }

  ghost predicate PolicyRun(cfg: Config, policy: Policy, s: State, events: seq<Event>, s': State)
    decreases events
  {
    if events == [] then s == s'
    else
      && Enabled(s, events[0]) && Honest(s, events[0]) && Allowed(policy, s, events[0])
      && PolicyRun(cfg, policy, Step(cfg, s, events[0]), events[1..], s')
  }

  /** Records that creation can lead through, from one without a wallet on. */
  ghost predicate Chain(policy: Policy, rs: seq<seq<LinkedAccount>>) {
    rs != [] && EthWallet(rs[0]).None? && forall i | 0 <= i < |rs| - 1 :: policy(rs[i], rs[i + 1])
  }

  /** The last step of the chain changes the choice of a wallet. */
  ghost predicate Changes(policy: Policy, rs: seq<seq<LinkedAccount>>) {
    && Chain(policy, rs) && |rs| >= 2 && EthWallet(rs[|rs| - 2]).Some?
    && EthWallet(rs[|rs| - 1]) != EthWallet(rs[|rs| - 2])
  }

  /** Once creation has led to a wallet, further creation does not lead to another. */
  ghost predicate KeepsChoices(policy: Policy) {
    forall rs :: !Changes(policy, rs)
  }

  ghost predicate FromChain(policy: Policy, s: State, id: string) {
    || (exists rs :: Chain(policy, rs) && rs[|rs| - 1] == Record(s, id))
    || (EthWallet(Record(s, id)).Some? && CreatingFor(s, id) == {})
  }

  lemma ChainGrows(policy: Policy, rs: seq<seq<LinkedAccount>>, after: seq<LinkedAccount>)
    requires KeepsChoices(policy) && Chain(policy, rs) && policy(rs[|rs| - 1], after)
    ensures Chain(policy, rs + [after])
    ensures EthWallet(rs[|rs| - 1]).Some? ==> EthWallet(after) == EthWallet(rs[|rs| - 1])
  {
    assert !Changes(policy, rs + [after]);
  }

  lemma RecordAfter(cfg: Config, s: State, e: Event, id: string)
    requires Enabled(s, e)
    ensures Record(Step(cfg, s, e), id) ==
            if e.Created? && e.after.Some? && s.flights[e.t].id == id then e.after.value else Record(s, id)
  {
  }

  lemma StepKeepsChain(cfg: Config, policy: Policy, s: State, e: Event, id: string)
    requires Enabled(s, e) && Honest(s, e) && Allowed(policy, s, e) && KeepsChoices(policy) && FromChain(policy, s, id)
    ensures FromChain(policy, Step(cfg, s, e), id) && KeepsChoice(s, e, id)
  {
    RecordAfter(cfg, s, e, id);
    if rs :| Chain(policy, rs) && rs[|rs| - 1] == Record(s, id) {
      if e.Created? && e.after.Some? && s.flights[e.t].id == id {
        ChainGrows(policy, rs, e.after.value);
        assert (rs + [e.after.value])[|rs|] == e.after.value;
      }
    } else {
      assert e.Created? ==> e.t !in CreatingFor(s, id);
      CreatingShrinks(cfg, s, e, id);
    }
  }

  lemma {:induction false} PolicyRunKeeps(cfg: Config, policy: Policy, s: State, events: seq<Event>, s': State, id: string)
    requires PolicyRun(cfg, policy, s, events, s') && KeepsChoices(policy) && AllCurrent(s, id) && FromChain(policy, s, id)
    ensures AllCurrent(s', id)
    decreases events
  {
    if events != [] {
      StepKeepsChain(cfg, policy, s, events[0], id);
      StepKeepsCurrent(cfg, s, events[0], id);
      PolicyRunKeeps(cfg, policy, Step(cfg, s, events[0]), events[1..], s', id);
    }
  }

  /** With calls overlapping in any way, the same holds of a Privy that keeps the choices it has led to. */
  lemma CacheRefinesRecord(cfg: Config, policy: Policy, s: State, events: seq<Event>, s': State, id: string)
    requires Initial(s) && PolicyRun(cfg, policy, s, events, s') && KeepsChoices(policy)
    ensures Refines(s', id)
  {
    assert FromChain(policy, s, id) by {
      if EthWallet(Record(s, id)).None? {
        assert Chain(policy, [Record(s, id)]);
      } else {
        assert CreatingFor(s, id) == {};
      }
    }
    PolicyRunKeeps(cfg, policy, s, events, s', id);
  }

  lemma PolicyRunCons(cfg: Config, policy: Policy, s: State, e: Event, rest: seq<Event>, s': State)
    requires Enabled(s, e) && Honest(s, e) && Allowed(policy, s, e) && PolicyRun(cfg, policy, Step(cfg, s, e), rest, s')
    ensures PolicyRun(cfg, policy, s, [e] + rest, s')
  {
    assert ([e] + rest)[1..] == rest;
  }

  /** Call t is about to create a wallet for the id, having seen none. */
  predicate AboutToCreate(s: State, t: nat, id: string) {
    && t in s.flights && s.flights[t].id == id && s.flights[t].phase.Creating?
    && EthWallet(s.flights[t].phase.user.accounts).None?
  }

  lemma CreateLeavesOthers(cfg: Config, s: State, t: nat, after: seq<LinkedAccount>, create: Reply<Listed>, id: string)
    requires AboutToCreate(s, t, id) && !create.NotBuilt?
    ensures var s' := Step(cfg, s, Created(t, Some(after), create));
            Record(s', id) == after && forall u | u != t :: AboutToCreate(s, u, id) ==> AboutToCreate(s', u, id)
  {
  }

  /** The user of call t is stored with the wallet of its create response; then call u changes the choice. */
  lemma StoresThenChanges(cfg: Config, policy: Policy, s: State, id: string, r1: seq<LinkedAccount>, r2: seq<LinkedAccount>, t: nat, u: nat)
    returns (events: seq<Event>, s': State)
    requires AboutToCreate(s, t, id) && AboutToCreate(s, u, id) && t != u
    requires policy(Record(s, id), r1) && policy(r1, r2) && EthWallet(r1).Some? && EthWallet(r2) != EthWallet(r1)
    ensures PolicyRun(cfg, policy, s, events, s') && !Refines(s', id)
  {
    var e1, e2, e3 := Created(t, Some(r1), Body(Listing(r1))), Stored(t), Created(u, Some(r2), NoResponse);
    ProvisionedIsCurrent(s.flights[t].phase.user, r1);
    CreateLeavesOthers(cfg, s, t, r1, Body(Listing(r1)), id);
    var s1 := Step(cfg, s, e1);
    var s2 := Step(cfg, s1, e2);
    assert AboutToCreate(s2, u, id) && Record(s2, id) == r1;
    s' := Step(cfg, s2, e3);
    assert EthWallet(s'.cache[id].accounts) == EthWallet(r1) && Record(s', id) == r2;
    assert PolicyRun(cfg, policy, s', [], s');
    PolicyRunCons(cfg, policy, s2, e3, [], s');
    PolicyRunCons(cfg, policy, s1, e2, [e3] + [], s');
    PolicyRunCons(cfg, policy, s, e1, [e2] + ([e3] + []), s');
    events := [e1] + ([e2] + ([e3] + []));
  }

  /** Waiting calls lead Privy along the chain, all but the last two without an answer reaching them. */
  lemma {:induction false} FollowsChain(cfg: Config, policy: Policy, s: State, id: string, rs: seq<seq<LinkedAccount>>, t: nat)
    returns (events: seq<Event>, s': State)
    requires |rs| >= 3 && Record(s, id) == rs[0] && forall i | 0 <= i < |rs| - 1 :: policy(rs[i], rs[i + 1])
    requires EthWallet(rs[|rs| - 2]).Some? && EthWallet(rs[|rs| - 1]) != EthWallet(rs[|rs| - 2])
    requires forall u | t <= u < t + |rs| - 1 :: AboutToCreate(s, u, id)
    ensures PolicyRun(cfg, policy, s, events, s') && !Refines(s', id)
    decreases |rs|
  {
    assert policy(rs[0], rs[0 + 1]) && policy(rs[1], rs[1 + 1]);
    if |rs| == 3 {
      events, s' := StoresThenChanges(cfg, policy, s, id, rs[1], rs[2], t, t + 1);
    } else {
      var e := Created(t, Some(rs[1]), NoResponse);
      CreateLeavesOthers(cfg, s, t, rs[1], NoResponse, id);
      var rest := rs[1..];
      forall i | 0 <= i < |rest| - 1 ensures policy(rest[i], rest[i + 1]) {
        assert policy(rs[i + 1], rs[i + 1 + 1]);
      }
      var more, end := FollowsChain(cfg, policy, Step(cfg, s, e), id, rest, t + 1);
      PolicyRunCons(cfg, policy, s, e, more, end);
      events, s' := [e] + more, end;
    }
  }

  // ---- Provisioning ------------------------------------------------------------------------------------

  /** Calls that have seen a record of this id without a wallet and are about to create one. */
  function CreatingFor(s: State, id: string): set<nat> {
    set t | t in s.flights && s.flights[t].id == id && s.flights[t].phase.Creating?
  }

  function Count(ids: seq<string>, id: string): nat {
    if ids == [] then 0 else Count(ids[..|ids| - 1], id) + if ids[|ids| - 1] == id then 1 else 0
  }

  /** A create request does not take the last wallet from this id. */
  predicate Retains(s: State, e: Event, id: string)
    requires Enabled(s, e)
  {
    e.Created? && e.after.Some? && s.flights[e.t].id == id && EthWallet(Record(s, id)).Some? ==> EthWallet(e.after.value).Some?
  }

  /**
   * An honest run in which create requests take no id's last wallet away and never more than k calls
   * for this id are about to create at the same time.
   */
  ghost predicate BoundedRun(cfg: Config, s: State, events: seq<Event>, s': State, id: string, k: nat)
    decreases events
  {
    && |CreatingFor(s, id)| <= k
    && if events == [] then s == s'
       else
         && Enabled(s, events[0]) && Honest(s, events[0]) && Retains(s, events[0], id)
         && BoundedRun(cfg, Step(cfg, s, events[0]), events[1..], s', id, k)
  }

  ghost predicate ProvisionBound(s: State, id: string, k: nat) {
    Count(s.provisioned, id) > 0 ==>
      EthWallet(Record(s, id)).Some? && Count(s.provisioned, id) + |CreatingFor(s, id)| <= k
  }

  lemma FewerCreating(small: set<nat>, large: set<nat>)
    requires small <= large
    ensures |small| <= |large| && (small != large ==> |small| < |large|)
  {
    assert large == small + (large - small);
    assert small != large ==> large - small != {};
  }

  /** Once the record has a wallet, no call starts to create one. */
  lemma CreatingShrinks(cfg: Config, s: State, e: Event, id: string)
    requires Enabled(s, e) && Honest(s, e) && EthWallet(Record(s, id)).Some?
    ensures CreatingFor(Step(cfg, s, e), id) <= CreatingFor(s, id)
  {
  }

  lemma CreateLeaves(cfg: Config, s: State, e: Event, id: string)
    requires Enabled(s, e) && e.Created? && s.flights[e.t].id == id
    ensures |CreatingFor(Step(cfg, s, e), id)| + 1 <= |CreatingFor(s, id)|
  {
    assert e.t in CreatingFor(s, id) && e.t !in CreatingFor(Step(cfg, s, e), id);
    FewerCreating(CreatingFor(Step(cfg, s, e), id), CreatingFor(s, id));
  }

  predicate Provisions(s: State, e: Event, id: string)
    requires Enabled(s, e)
  {
    e.Created? && e.after.Some? && s.flights[e.t].id == id && Wallets(e.after.value) > Wallets(Record(s, id))
  }

  lemma CountStep(cfg: Config, s: State, e: Event, id: string)
    requires Enabled(s, e)
    ensures Count(Step(cfg, s, e).provisioned, id) == Count(s.provisioned, id) + if Provisions(s, e, id) then 1 else 0
  {
    var after := Step(cfg, s, e).provisioned;
    assert after == s.provisioned || after[..|after| - 1] == s.provisioned;
  }

  lemma StepKeepsBound(cfg: Config, s: State, e: Event, id: string, k: nat)
    requires Enabled(s, e) && Honest(s, e) && Retains(s, e, id) && ProvisionBound(s, id, k) && |CreatingFor(s, id)| <= k
    ensures ProvisionBound(Step(cfg, s, e), id, k)
  {
    CountStep(cfg, s, e, id);
    if Provisions(s, e, id) {
      WalletsCounted(e.after.value);
      CreateLeaves(cfg, s, e, id);
    } else if Count(s.provisioned, id) > 0 {
      CreatingShrinks(cfg, s, e, id);
      FewerCreating(CreatingFor(Step(cfg, s, e), id), CreatingFor(s, id));
    }
  }

  lemma {:induction false} BoundedRunKeeps(cfg: Config, s: State, events: seq<Event>, s': State, id: string, k: nat)
    requires BoundedRun(cfg, s, events, s', id, k) && ProvisionBound(s, id, k)
    ensures ProvisionBound(s', id, k)
    decreases events
  {
    if events != [] {
      StepKeepsBound(cfg, s, events[0], id, k);
      BoundedRunKeeps(cfg, Step(cfg, s, events[0]), events[1..], s', id, k);
    }
  }

  /**
   * However often cache entries are dropped, at most as many create requests add a wallet for an id as
   * there were calls for it between an empty-handed fetch and their create request at one time.
   */
  lemma WalletsBoundedByOverlap(cfg: Config, s: State, events: seq<Event>, s': State, id: string, k: nat)
    requires Initial(s) && BoundedRun(cfg, s, events, s', id, k)
    ensures Count(s'.provisioned, id) <= k
  {
    BoundedRunKeeps(cfg, s, events, s', id, k);
  }

  lemma {:induction false} SequentialIsBounded(cfg: Config, s: State, events: seq<Event>, s': State, id: string)
    requires SequentialRun(cfg, s, events, s', id) && SeenIsRecord(s, id)
    ensures BoundedRun(cfg, s, events, s', id, 1)
    decreases events
  {
    assert |CreatingFor(s, id)| <= 1 by {
      if t :| t in CreatingFor(s, id) {
        FewerCreating(CreatingFor(s, id), {t});
      }
    }
    if events != [] {
      StepKeepsSeen(cfg, s, events[0], id);
      SequentialIsBounded(cfg, Step(cfg, s, events[0]), events[1..], s', id);
    }
  }

  /** If calls for one id never overlap, it is provisioned at most once. */
  lemma ProvisionedAtMostOnce(cfg: Config, s: State, events: seq<Event>, s': State, id: string)
    requires Initial(s) && SequentialRun(cfg, s, events, s', id)
    ensures Count(s'.provisioned, id) <= 1
  {
    SequentialIsBounded(cfg, s, events, s', id);
    WalletsBoundedByOverlap(cfg, s, events, s', id, 1);
  }

  lemma BoundedRunCons(cfg: Config, s: State, e: Event, rest: seq<Event>, s': State, id: string, k: nat)
    requires |CreatingFor(s, id)| <= k && Enabled(s, e) && Honest(s, e) && Retains(s, e, id) && BoundedRun(cfg, Step(cfg, s, e), rest, s', id, k)
    ensures BoundedRun(cfg, s, [e] + rest, s', id, k)
  {
    assert ([e] + rest)[1..] == rest;
  }

  lemma ArrivesFetching(cfg: Config, s: State, t: nat, call: Call, id: string) returns (s': State)
    requires t !in s.flights && WellFormedCall(call) && Admit(cfg, call) == Ok(id) && id !in s.cache
    ensures Enabled(s, Arrive(t, call)) && s' == Step(cfg, s, Arrive(t, call))
    ensures s' == s.(flights := s.flights[t := Flight(call, id, Fetching)])
    ensures CreatingFor(s', id) == CreatingFor(s, id)
  {
    s' := Step(cfg, s, Arrive(t, call));
  }

  lemma FindsNoWallet(cfg: Config, s: State, t: nat, user: User, id: string) returns (s': State)
    requires t in s.flights && s.flights[t].phase == Fetching && s.flights[t].id == id && EthWallet(user.accounts).None?
    ensures Enabled(s, Fetched(t, Body(user))) && s' == Step(cfg, s, Fetched(t, Body(user)))
    ensures s'.record == s.record && s'.provisioned == s.provisioned && s'.cache == s.cache
    ensures s'.flights == s.flights[t := s.flights[t].(phase := Creating(user))]
    ensures CreatingFor(s', id) == CreatingFor(s, id) + {t}
  {
    s' := Step(cfg, s, Fetched(t, Body(user)));
  }

  /** Calls 0 to i - 1, all of them about to create a wallet for the id, and nothing else has happened. */
  ghost predicate Gathered(s: State, s0: State, id: string, i: nat) {
    && s.record == s0.record && s.provisioned == [] && s.cache == map[]
    && (forall t | t in s.flights :: t < i) && (forall t | 0 <= t < i :: AboutToCreate(s, t, id)) && |CreatingFor(s, id)| == i
  }

  lemma GatheredGrows(s: State, s0: State, call: Call, id: string, user: User, i: nat, s': State)
    requires Gathered(s, s0, id, i) && EthWallet(user.accounts).None?
    requires s'.record == s.record && s'.provisioned == s.provisioned && s'.cache == s.cache
    requires s'.flights == s.flights[i := Flight(call, id, Creating(user))]
    ensures Gathered(s', s0, id, i + 1)
  {
    assert i !in CreatingFor(s, id) && CreatingFor(s', id) == CreatingFor(s, id) + {i};
    forall t | 0 <= t < i + 1 ensures AboutToCreate(s', t, id) {
      assert t < i ==> AboutToCreate(s, t, id);
    }
  }

  lemma OneMoreGathers(cfg: Config, s: State, s0: State, call: Call, id: string, i: nat) returns (s1: State, user: User, s2: State)
    requires Gathered(s, s0, id, i) && WellFormedCall(call) && Admit(cfg, call) == Ok(id) && EthWallet(Record(s0, id)).None?
    ensures Enabled(s, Arrive(i, call)) && s1 == Step(cfg, s, Arrive(i, call)) && |CreatingFor(s1, id)| == i
    ensures Enabled(s1, Fetched(i, Body(user))) && Honest(s1, Fetched(i, Body(user))) && s2 == Step(cfg, s1, Fetched(i, Body(user)))
    ensures Gathered(s2, s0, id, i + 1)
  {
    user := User("", Record(s0, id));
    s1 := ArrivesFetching(cfg, s, i, call, id);
    s2 := FindsNoWallet(cfg, s1, i, user, id);
    GatheredGrows(s, s0, call, id, user, i, s2);
  }

  lemma CreatesOne(cfg: Config, s: State, t: nat, id: string, w: LinkedAccount) returns (e: Event)
    requires t in CreatingFor(s, id) && IsDelegatedEth(w)
    ensures Enabled(s, e) && Honest(s, e) && Retains(s, e, id)
    ensures var s' := Step(cfg, s, e);
            Count(s'.provisioned, id) == Count(s.provisioned, id) + 1 && CreatingFor(s', id) == CreatingFor(s, id) - {t}
  {
    var after := Record(s, id) + [w];
    e := Created(t, Some(after), Body(Listing(after)));
    WalletsAppendOne(Record(s, id), w);
    EthWalletAppendOne(Record(s, id), w);
    CountStep(cfg, s, e, id);
  }

  /** Calls that all saw no wallet each have one created. */
  lemma {:induction false} AllCreate(cfg: Config, s: State, id: string, w: LinkedAccount, k: nat) returns (events: seq<Event>, s': State)
    requires |CreatingFor(s, id)| <= k && IsDelegatedEth(w)
    ensures BoundedRun(cfg, s, events, s', id, k)
    ensures Count(s'.provisioned, id) == Count(s.provisioned, id) + |CreatingFor(s, id)|
    decreases |CreatingFor(s, id)|
  {
    if CreatingFor(s, id) == {} {
      events, s' := [], s;
    } else {
      var t :| t in CreatingFor(s, id);
      var e := CreatesOne(cfg, s, t, id, w);
      var rest, s1 := AllCreate(cfg, Step(cfg, s, e), id, w, k);
      BoundedRunCons(cfg, s, e, rest, s1, id, k);
      events, s' := [e] + rest, s1;
    }
  }

  /** First the remaining calls up to k arrive and see no wallet, then all create. */
  lemma {:induction false} GatherAndCreate(cfg: Config, s: State, s0: State, call: Call, id: string, w: LinkedAccount, i: nat, k: nat)
    returns (events: seq<Event>, s': State)
    requires Gathered(s, s0, id, i) && i <= k && IsDelegatedEth(w)
    requires WellFormedCall(call) && Admit(cfg, call) == Ok(id) && EthWallet(Record(s0, id)).None?
    ensures BoundedRun(cfg, s, events, s', id, k) && Count(s'.provisioned, id) == k
    decreases k - i
  {
    if i == k {
      events, s' := AllCreate(cfg, s, id, w, k);
    } else {
      var s1, user, s2 := OneMoreGathers(cfg, s, s0, call, id, i);
      var rest, end := GatherAndCreate(cfg, s2, s0, call, id, w, i + 1, k);
      BoundedRunCons(cfg, s1, Fetched(i, Body(user)), rest, end, id, k);
      BoundedRunCons(cfg, s, Arrive(i, call), [Fetched(i, Body(user))] + rest, end, id, k);
      events, s' := [Arrive(i, call)] + ([Fetched(i, Body(user))] + rest), end;
    }
  }

  /** A wallet may be created for this id: it has none, and some call is admitted for it. */
  ghost predicate CanNeedWallet(cfg: Config, s: State, id: string) {
    EthWallet(Record(s, id)).None? && exists call :: WellFormedCall(call) && Admit(cfg, call) == Ok(id)
  }

  /** The bound is reached: k overlapping calls for an id that needs a wallet can each have one created. */
  lemma OverlapProvisions(cfg: Config, s: State, id: string, k: nat) returns (events: seq<Event>, s': State)
    requires Initial(s) && CanNeedWallet(cfg, s, id)
    ensures BoundedRun(cfg, s, events, s', id, k) && Count(s'.provisioned, id) == k
  {
    var call :| WellFormedCall(call) && Admit(cfg, call) == Ok(id);
    assert CreatingFor(s, id) == {};
    events, s' := GatherAndCreate(cfg, s, s, call, id, LinkedAccount("", "ethereum", true, ""), 0, k);
  }

  /** Nothing has been created for the id, and no call can come to create anything. */
  ghost predicate NeedsNone(cfg: Config, s: State, id: string) {
    && Count(s.provisioned, id) == 0 && CreatingFor(s, id) == {}
    && (EthWallet(Record(s, id)).Some? ||
        ((forall call | WellFormedCall(call) :: Admit(cfg, call) != Ok(id)) &&
         (forall t | t in s.flights && !s.flights[t].phase.Finished? :: s.flights[t].id != id)))
  }

  lemma StepNeedsNone(cfg: Config, s: State, e: Event, id: string)
    requires Enabled(s, e) && Honest(s, e) && NeedsNone(cfg, s, id)
    ensures NeedsNone(cfg, Step(cfg, s, e), id)
  {
    assert e.Created? ==> e.t !in CreatingFor(s, id);
    CountStep(cfg, s, e, id);
    if EthWallet(Record(s, id)).Some? {
      CreatingShrinks(cfg, s, e, id);
    }
  }

  lemma {:induction false} RunNeedsNone(cfg: Config, s: State, events: seq<Event>, s': State, id: string, k: nat)
    requires NeedsNone(cfg, s, id) && BoundedRun(cfg, s, events, s', id, k)
    ensures Count(s'.provisioned, id) == 0
    decreases events
  {
    if events != [] {
      StepNeedsNone(cfg, s, events[0], id);
      RunNeedsNone(cfg, Step(cfg, s, events[0]), events[1..], s', id, k);
    }
  }

  /** In no run with an overlap of at most k do more than n create requests add a wallet for the id. */
  ghost predicate AtMostWallets(cfg: Config, s: State, id: string, k: nat, n: nat) {
    forall events, s' | BoundedRun(cfg, s, events, s', id, k) :: Count(s'.provisioned, id) <= n
  }

  /**
   * So in no run with an overlap of at most k do more than n create requests add a wallet for an id
   * exactly when k is at most n, or the id has a wallet to begin with, or no call is ever admitted for
   * it. For n = 1: one wallet each is safe exactly as long as calls for an id do not overlap there.
   */
  lemma WalletsExactlyOverlap(cfg: Config, s: State, id: string, k: nat, n: nat)
    requires Initial(s)
    ensures AtMostWallets(cfg, s, id, k, n) <==> k <= n || !CanNeedWallet(cfg, s, id)
  {
    if k <= n || !CanNeedWallet(cfg, s, id) {
      forall events, s' | BoundedRun(cfg, s, events, s', id, k) ensures Count(s'.provisioned, id) <= n {
        if k <= n {
          WalletsBoundedByOverlap(cfg, s, events, s', id, k);
        } else {
          assert CreatingFor(s, id) == {};
          RunNeedsNone(cfg, s, events, s', id, k);
        }
      }
    } else {
      var events, s' := OverlapProvisions(cfg, s, id, k);
      assert BoundedRun(cfg, s, events, s', id, k) && Count(s'.provisioned, id) > n;
    }
  }

  // ---- The condition for refinement is exact ---------------------------------------------------------

  /** As many calls as the chain has steps gather first. */
  lemma {:induction false} GatherAndFollow(cfg: Config, policy: Policy, s: State, s0: State, call: Call, id: string, rs: seq<seq<LinkedAccount>>, i: nat)
    returns (events: seq<Event>, s': State)
    requires Gathered(s, s0, id, i) && i < |rs| && Changes(policy, rs) && Record(s0, id) == rs[0]
    requires WellFormedCall(call) && Admit(cfg, call) == Ok(id)
    ensures PolicyRun(cfg, policy, s, events, s') && !Refines(s', id)
    decreases |rs| - i
  {
    if i == |rs| - 1 {
      events, s' := FollowsChain(cfg, policy, s, id, rs, 0);
    } else {
      var s1, user, s2 := OneMoreGathers(cfg, s, s0, call, id, i);
      var rest, end := GatherAndFollow(cfg, policy, s2, s0, call, id, rs, i + 1);
      PolicyRunCons(cfg, policy, s1, Fetched(i, Body(user)), rest, end);
      PolicyRunCons(cfg, policy, s, Arrive(i, call), [Fetched(i, Body(user))] + rest, end);
      events, s' := [Arrive(i, call)] + ([Fetched(i, Body(user))] + rest), end;
    }
  }

  /** In every run with Privy under this policy, cache and RPCs lead to the record's wallet. */
  ghost predicate AlwaysRefines(cfg: Config, policy: Policy, id: string) {
    forall s, events, s' | Initial(s) && PolicyRun(cfg, policy, s, events, s') :: Refines(s', id)
  }

  /**
   * That condition is exact: for an id for which some call is admitted, the cache refines the record
   * in every run if and only if Privy keeps the choices that creation has led to.
   */
  lemma RefinementExactly(cfg: Config, policy: Policy, id: string)
    requires exists call :: WellFormedCall(call) && Admit(cfg, call) == Ok(id)
    ensures AlwaysRefines(cfg, policy, id) <==> KeepsChoices(policy)
  {
    if KeepsChoices(policy) {
      forall s, events, s' | Initial(s) && PolicyRun(cfg, policy, s, events, s') ensures Refines(s', id) {
        CacheRefinesRecord(cfg, policy, s, events, s', id);
      }
    } else {
      var call :| WellFormedCall(call) && Admit(cfg, call) == Ok(id);
      var rs :| Changes(policy, rs);
      var s := State(map[], map[id := rs[0]], map[], {}, {}, [], []);
      assert CreatingFor(s, id) == {};
      var events, s' := GatherAndFollow(cfg, policy, s, s, call, id, rs, 0);
    }
  }

  function Appending(): Policy {
    (before: seq<LinkedAccount>, after: seq<LinkedAccount>) => before <= after
  }

  function Prepending(): Policy {
    (before: seq<LinkedAccount>, after: seq<LinkedAccount>) =>
      |before| <= |after| && after[|after| - |before|..] == before
  }

  lemma ChoiceOfPrefix(before: seq<LinkedAccount>, after: seq<LinkedAccount>)
    requires before <= after
    ensures EthWallet(before).Some? ==> EthWallet(after) == EthWallet(before)
  {
    EthWalletAppend(before, after[|before|..]);
    assert before + after[|before|..] == after;
  }

  /** New accounts at the end of the record are harmless; new accounts at its front are not, once calls overlap. */
  lemma PlacementMatters(cfg: Config, id: string)
    requires exists call :: WellFormedCall(call) && Admit(cfg, call) == Ok(id)
    ensures AlwaysRefines(cfg, Appending(), id) && !AlwaysRefines(cfg, Prepending(), id)
  {
    forall rs ensures !Changes(Appending(), rs) {
      if Chain(Appending(), rs) && |rs| >= 2 {
        var i := |rs| - 2;
        assert Appending()(rs[i], rs[i + 1]);
        ChoiceOfPrefix(rs[i], rs[i + 1]);
      }
    }
    RefinementExactly(cfg, Appending(), id);
    var w1, w2 := LinkedAccount("1", "ethereum", true, ""), LinkedAccount("2", "ethereum", true, "");
    var rs := [[], [w1], [w2, w1]];
    assert Prepending()(rs[0], rs[1]) && Prepending()(rs[1], rs[2]);
    assert Changes(Prepending(), rs);
    RefinementExactly(cfg, Prepending(), id);
  }

  // ---- One call of the many is the call on its own ----------------------------------------------------------

  /** The next step of call t when the world answers w; after is the record that its create request leaves, if it has an effect. */
  function NextEvent(s: State, t: nat, w: World, after: Option<seq<LinkedAccount>>): Event
    requires t in s.flights && !s.flights[t].phase.Finished?
  {
    match s.flights[t].phase
    case Fetching => Fetched(t, w.get)
    case Creating(_) => Created(t, after, w.create)
    case Storing(_) => Stored(t)
    case Resolved(_) => Picked(t, w.built)
    case AwaitingRpc => Replied(t, w.reply)
  }

  function Rank(phase: Phase): nat {
    match phase
    case Fetching => 5
    case Creating(_) => 4
    case Storing(_) => 3
    case Resolved(_) => 2
    case AwaitingRpc => 1
    case Finished(_) => 0
  }

  predicate Drivable(cfg: Config, s: State, t: nat, w: World, after: Option<seq<LinkedAccount>>) {
    && t in s.flights
    && (s.flights[t].call.handler != UserLookup ==> s.flights[t].call.body.Some? || s.flights[t].phase.Finished?)
    && (w.create.NotBuilt? ==> after.None?) && !w.reply.NotBuilt?
  }

  /** Run call t to its end without interruption. */
  function Drive(cfg: Config, s: State, t: nat, w: World, after: Option<seq<LinkedAccount>>): State
    requires Drivable(cfg, s, t, w, after)
    decreases Rank(s.flights[t].phase)
  {
    if s.flights[t].phase.Finished? then s
    else Drive(cfg, Step(cfg, s, NextEvent(s, t, w, after)), t, w, after)
  }

  function RpcsOf(t: nat, sent: seq<Request>): seq<(nat, Rpc)> {
    if sent == [] then []
    else RpcsOf(t, sent[..|sent| - 1]) + if sent[|sent| - 1].WalletRpc? then [(t, sent[|sent| - 1].rpc)] else []
  }

  lemma DrivePicked(cfg: Config, s: State, t: nat, w: World, after: Option<seq<LinkedAccount>>)
    requires Drivable(cfg, s, t, w, after) && s.flights[t].phase.Resolved?
    ensures var s' := Drive(cfg, s, t, w, after);
            var flight := s.flights[t];
            && t in s'.flights && s'.cache == s.cache
            && if flight.call.handler == UserLookup then s'.flights[t].phase == Finished(Found(flight.phase.user)) && s'.rpcs == s.rpcs
               else match Pick(cfg, flight.phase.user, flight.call.body.value, w.built) {
                 case Err(e) => s'.flights[t].phase == Finished(Failed(e)) && s'.rpcs == s.rpcs
                 case Ok(rpc) => s'.flights[t].phase == Finished(ReplyResponse(w.reply)) && s'.rpcs == s.rpcs + [(t, rpc)]
               }
  {
    var s1 := Step(cfg, s, Picked(t, w.built));
    assert Drive(cfg, s, t, w, after) == Drive(cfg, s1, t, w, after);
    if s1.flights[t].phase.AwaitingRpc? {
      var s2 := Step(cfg, s1, Replied(t, w.reply));
      assert Drive(cfg, s1, t, w, after) == Drive(cfg, s2, t, w, after) == s2;
    }
  }

  lemma DriveStep(cfg: Config, s: State, t: nat, w: World, after: Option<seq<LinkedAccount>>)
    requires Drivable(cfg, s, t, w, after) && !s.flights[t].phase.Finished?
    ensures var s' := Step(cfg, s, NextEvent(s, t, w, after));
            Drivable(cfg, s', t, w, after) && Drive(cfg, s', t, w, after) == Drive(cfg, s, t, w, after) && s'.flights[t].call == s.flights[t].call
  {
  }

  /** The stretch from a fetched user to the end of the lookup. */
  lemma DriveProvision(cfg: Config, s: State, t: nat, w: World, after: Option<seq<LinkedAccount>>, user: User) returns (s': State)
    requires Drivable(cfg, s, t, w, after)
    requires s.flights[t].phase == if EthWallet(user.accounts).Some? then Storing(user) else Creating(user)
    ensures Drivable(cfg, s', t, w, after) && Drive(cfg, s', t, w, after) == Drive(cfg, s, t, w, after)
    ensures s'.rpcs == s.rpcs && s'.flights[t].call == s.flights[t].call
    ensures match if EthWallet(user.accounts).Some? then Ok(user) else Provision(user, w.create) {
              case Err(e) => s'.cache == s.cache && s'.flights[t].phase == Finished(Failed(e))
              case Ok(u) => s'.cache == s.cache[s.flights[t].id := u] && s'.flights[t].phase == Resolved(u)
            }
  {
    s' := s;
    if s'.flights[t].phase.Creating? {
      DriveStep(cfg, s', t, w, after);
      s' := Step(cfg, s', Created(t, after, w.create));
    }
    if s'.flights[t].phase.Storing? {
      DriveStep(cfg, s', t, w, after);
      s' := Step(cfg, s', Stored(t));
    }
  }

  lemma DriveFetch(cfg: Config, s: State, t: nat, w: World, after: Option<seq<LinkedAccount>>) returns (s': State)
    requires Drivable(cfg, s, t, w, after) && s.flights[t].phase.Fetching? && s.flights[t].id !in s.cache
    ensures Drivable(cfg, s', t, w, after) && Drive(cfg, s, t, w, after) == Drive(cfg, s', t, w, after)
    ensures s'.rpcs == s.rpcs && s'.flights[t].call == s.flights[t].call
    ensures var looked := LookupSpec(cfg, s.cache, s.flights[t].id, w);
            && s'.cache == looked.cache
            && s'.flights[t].phase == match looked.result { case Err(e) => Finished(Failed(e)) case Ok(user) => Resolved(user) }
  {
    DriveStep(cfg, s, t, w, after);
    s' := Step(cfg, s, Fetched(t, w.get));
    if w.get.Body? {
      s' := DriveProvision(cfg, s', t, w, after, w.get.value);
    }
  }

  lemma {:induction false} RpcsOfNone(t: nat, sent: seq<Request>)
    requires forall i | 0 <= i < |sent| :: !sent[i].WalletRpc?
    ensures RpcsOf(t, sent) == []
  {
    if sent != [] {
      RpcsOfNone(t, sent[..|sent| - 1]);
    }
  }

  lemma RpcsOfLooked(cfg: Config, cache: map<string, User>, id: string, w: World, t: nat, call: Call)
    requires call.handler != UserLookup ==> call.body.Some?
    ensures var looked := LookupSpec(cfg, cache, id, w);
            RpcsOf(t, ServeLooked(cfg, call, looked, w).sent) ==
            if looked.result.Ok? && call.handler != UserLookup && Pick(cfg, looked.result.value, call.body.value, w.built).Ok?
            then [(t, Pick(cfg, looked.result.value, call.body.value, w.built).value)] else []
  {
    var looked := LookupSpec(cfg, cache, id, w);
    RpcsOfNone(t, looked.sent);
    var sent := ServeLooked(cfg, call, looked, w).sent;
    assert sent == looked.sent || sent[..|sent| - 1] == looked.sent;
  }

  lemma DriveAdmitted(cfg: Config, s: State, t: nat, id: string, w: World, after: Option<seq<LinkedAccount>>)
    requires Drivable(cfg, s, t, w, after) && s.flights[t].id == id
    requires s.flights[t].call.handler != UserLookup ==> s.flights[t].call.body.Some?
    requires s.flights[t].phase == if id in s.cache then Resolved(s.cache[id]) else Fetching
    ensures var served := ServeLooked(cfg, s.flights[t].call, LookupSpec(cfg, s.cache, id, w), w);
            var s' := Drive(cfg, s, t, w, after);
            && t in s'.flights && s'.flights[t].phase == Finished(served.response)
            && s'.cache == served.cache && s'.rpcs == s.rpcs + RpcsOf(t, served.sent)
  {
    RpcsOfLooked(cfg, s.cache, id, w, t, s.flights[t].call);
    assert s.rpcs + [] == s.rpcs;
    var s2 := s;
    if id !in s.cache {
      s2 := DriveFetch(cfg, s, t, w, after);
    }
    if s2.flights[t].phase.Resolved? {
      DrivePicked(cfg, s2, t, w, after);
    }
  }

  /**
   * A call that no other call interrupts ends with the response, the cache and the RPCs of the
   * handler method, so the interleaved model runs the code's own steps.
   */
  lemma UninterruptedCall(cfg: Config, s: State, t: nat, call: Call, w: World, after: Option<seq<LinkedAccount>>)
    requires t !in s.flights && WellFormedCall(call) && (w.create.NotBuilt? ==> after.None?) && !w.reply.NotBuilt?
    ensures var s1 := Step(cfg, s, Arrive(t, call));
            var served := ServeSpec(cfg, s.cache, call, w);
            && Drivable(cfg, s1, t, w, after)
            && var s' := Drive(cfg, s1, t, w, after);
            && t in s'.flights && s'.flights[t].phase == Finished(served.response)
            && s'.cache == served.cache && s'.rpcs == s.rpcs + RpcsOf(t, served.sent)
  {
    var s1 := Step(cfg, s, Arrive(t, call));
    assert s.rpcs + [] == s.rpcs;
    if Admit(cfg, call).Ok? {
      DriveAdmitted(cfg, s1, t, Admit(cfg, call).value, w, after);
    }
  }
}
