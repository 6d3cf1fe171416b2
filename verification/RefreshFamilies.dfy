/**
 * Refresh-token families of backend/src/main/java/com/cipherchat/auth: rotation by any number of concurrent presenters,
 * split where the database sees it (read, conditional update, insert, family delete), with revocation and sweeping
 * between.
 *
 * A token is named by its hash; SHA-256 of the random cookie value is taken as injective. Times are seconds.
 */
module RefreshFamilies {
  import opened Wrappers

  type Hash = nat
  type CallId = nat

  const REUSE_GRACE: int := 10
  const USED_ROW_RETENTION: int := 7 * 24 * 3600

  datatype Token = Token(user: nat, family: nat, expiresAt: int, usedAt: Option<int>)

  type Table = map<Hash, Token>

  function WithoutFamily(rows: Table, family: nat): Table {
    map h | h in rows && rows[h].family != family :: rows[h]
  }

  predicate Consumable(rows: Table, hash: Hash, now: int) {
    hash in rows && rows[hash].usedAt.None? && rows[hash].expiresAt > now
  }

  predicate Unused(rows: Table, hash: Hash) {
    hash in rows && rows[hash].usedAt.None?
  }

  // -- Concurrent presenters ---------------------------------------------------

  /** Where one rotate() stands. */
  datatype Call =
    | Idle
    | Reading(hash: Hash, token: Token, now: int)     // read an unused, unexpired row
    | Marked(hash: Hash, token: Token)                // won the conditional update
    | Late(token: Token, usedAt: int, now: int)       // the token was used already

  /** The observer's record of a token: its family and the token it was minted from. */
  datatype Minted = Minted(family: nat, parent: Option<Hash>)

  datatype Auth = Auth(
    rows: Table,
    calls: map<CallId, Call>,
    minted: map<Hash, Minted>,   // every token ever issued
    families: set<nat>,
    rotated: seq<Hash>)          // the tokens that were rotated, in order
  {
    function CallOf(c: CallId): Call {
      if c in calls then calls[c] else Idle
    }

    function With(c: CallId, call: Call): Auth {
      this.(calls := calls[c := call])
    }
  }

  const FRESH: Auth := Auth(map[], map[], map[], {}, [])

  datatype Event =
    | Issue(user: nat, family: nat, hash: Hash, expiresAt: int)
    | Read(call: CallId, hash: Hash, now: int)
    | Consume(call: CallId)
    | Mint(call: CallId, hash: Hash, expiresAt: int)
    | Judge(call: CallId)
    | Remove(hashes: set<Hash>)    // any revocation or sweep
    | Die(call: CallId)

  /** Generated tokens and families are new. */
  predicate Enabled(s: Auth, ev: Event) {
    match ev
    case Issue(_, family, hash, _) => family !in s.families && hash !in s.minted
    case Read(c, _, _) => s.CallOf(c).Idle?
    case Consume(c) => s.CallOf(c).Reading?
    case Mint(c, hash, _) => s.CallOf(c).Marked? && hash !in s.minted
    case Judge(c) => s.CallOf(c).Late?
    case Remove(_) => true
    case Die(_) => true
  }

  function IssueStep(s: Auth, user: nat, family: nat, hash: Hash, expiresAt: int): Auth {
    s.(rows := s.rows[hash := Token(user, family, expiresAt, None)],
       minted := s.minted[hash := Minted(family, None)],
       families := s.families + {family})
  }

  function ReadStep(s: Auth, c: CallId, hash: Hash, now: int): Auth {
    if hash !in s.rows || s.rows[hash].expiresAt <= now then s
    else
      match s.rows[hash].usedAt
      case None => s.With(c, Reading(hash, s.rows[hash], now))
      case Some(used) => s.With(c, Late(s.rows[hash], used, now))
  }

  function ConsumeStep(s: Auth, c: CallId, hash: Hash, token: Token, now: int): Auth {
    if Consumable(s.rows, hash, now) then
      s.(rows := s.rows[hash := s.rows[hash].(usedAt := Some(now))]).With(c, Marked(hash, token))
    else s.With(c, Late(token, now, now))
  }

  function MintStep(s: Auth, c: CallId, parent: Hash, token: Token, hash: Hash, expiresAt: int): Auth {
    s.(rows := s.rows[hash := Token(token.user, token.family, expiresAt, None)],
       minted := s.minted[hash := Minted(token.family, Some(parent))],
       rotated := s.rotated + [parent]).With(c, Idle)
  }

  /** Within the grace window the loser is refused; after it the whole family goes. */
  function JudgeStep(s: Auth, c: CallId, token: Token, usedAt: int, now: int): Auth {
    if now - usedAt <= REUSE_GRACE then s.With(c, Idle)
    else s.(rows := WithoutFamily(s.rows, token.family)).With(c, Idle)
  }

  function Step(s: Auth, ev: Event): Auth {
    match ev
    case Issue(user, family, hash, expiresAt) => IssueStep(s, user, family, hash, expiresAt)
    case Read(c, hash, now) => ReadStep(s, c, hash, now)
    case Consume(c) =>
      (match s.CallOf(c) case Reading(hash, token, now) => ConsumeStep(s, c, hash, token, now) case _ => s)
    case Mint(c, hash, expiresAt) =>
      (match s.CallOf(c) case Marked(parent, token) => MintStep(s, c, parent, token, hash, expiresAt) case _ => s)
    case Judge(c) =>
      (match s.CallOf(c) case Late(token, usedAt, now) => JudgeStep(s, c, token, usedAt, now) case _ => s)
    case Remove(hashes) => s.(rows := s.rows - hashes)
    case Die(c) => s.With(c, Idle)
  }

  function Run(s: Auth, events: seq<Event>): Auth {
    if events == [] then s else Step(Run(s, events[..|events| - 1]), events[|events| - 1])
  }

  predicate Valid(s: Auth, events: seq<Event>) {
    events != [] ==>
      Valid(s, events[..|events| - 1]) && Enabled(Run(s, events[..|events| - 1]), events[|events| - 1])
  }

  // -- The invariant -----------------------------------------------------------

  predicate Known(s: Auth, hash: Hash, family: nat) {
    hash in s.minted && s.minted[hash].family == family && family in s.families
  }

  /** Rows are recorded, and a token's family is its parent's. */
  predicate RecordOk(s: Auth) {
    && (forall h :: h in s.rows ==> Known(s, h, s.rows[h].family))
    && (forall h :: h in s.minted ==> s.minted[h].family in s.families)
    && (forall h :: h in s.minted && s.minted[h].parent.Some? ==>
          Known(s, s.minted[h].parent.value, s.minted[h].family))
  }

  predicate CallOk(s: Auth, call: Call) {
    match call
    case Idle => true
    case Reading(hash, token, _) => Known(s, hash, token.family)
    case Marked(hash, token) => Known(s, hash, token.family) && !Unused(s.rows, hash) && hash !in s.rotated
    case Late(token, _, _) => token.family in s.families
  }

  ghost predicate CallsOk(s: Auth) {
    forall c: CallId :: CallOk(s, s.CallOf(c))
  }

  /** The presenter won the update of a token of this family and has not inserted its successor. */
  predicate Claims(call: Call, family: nat) {
    call.Marked? && call.token.family == family
  }

  /** The presenters of a family that won an update are one. */
  predicate OneClaim(s: Auth, b: CallId, c: CallId) {
    s.CallOf(b).Marked? && Claims(s.CallOf(c), s.CallOf(b).token.family) ==> b == c
  }

  /** While a presenter has the claim, its family has no unused row. */
  ghost predicate NoneBeside(s: Auth, c: CallId) {
    s.CallOf(c).Marked? ==> forall h :: Unused(s.rows, h) ==> s.rows[h].family != s.CallOf(c).token.family
  }

  ghost predicate OneUnused(rows: Table) {
    forall h, k :: Unused(rows, h) && Unused(rows, k) && rows[h].family == rows[k].family ==> h == k
  }

  /** A family has one place from which its next token can come: an unused row, or a presenter that won the update. */
  ghost predicate OneLine(s: Auth) {
    && OneUnused(s.rows)
    && (forall c: CallId :: NoneBeside(s, c))
    && (forall b: CallId, c: CallId :: OneClaim(s, b, c))
  }

  /** No token was rotated twice, and a rotated token is never unused again. */
  ghost predicate RotatedOnce(s: Auth) {
    && (forall i, j :: 0 <= i < j < |s.rotated| ==> s.rotated[i] != s.rotated[j])
    && (forall h :: h in s.rotated ==> h in s.minted && !Unused(s.rows, h))
  }

  ghost predicate AuthInv(s: Auth) {
    RecordOk(s) && CallsOk(s) && OneLine(s) && RotatedOnce(s)
  }
}
