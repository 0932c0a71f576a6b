/** The Terraform login handshake: browser approval, authorization codes with PKCE, and their
    redemption, as atomic transactions over users, codes and tokens. */
module TerraformLogin {

  type UserId = nat
  type CodeId = nat
  type TokenId = nat
  type Hash = nat        // a stored password hash; every one written is new, as salts are

  /** `epoch` counts the user's password changes; rehashing the same password keeps it. */
  datatype User = User(hash: Hash, epoch: nat, blocked: bool, mustChangePassword: bool)

  /** `challenge` is the PKCE challenge; `epoch` that of the session that approved the code. */
  datatype Code = Code(user: UserId, challenge: nat, redirect: nat, expires: int, epoch: nat)

  datatype Token = Token(user: UserId, code: CodeId, epoch: nat)

  /** What the approving request read: a browser session's user, with the hash of that moment. */
  datatype Approval = Approval(user: UserId, hash: Hash, epoch: nat, challenge: nat, redirect: nat)

  /** A redemption past the peek: the entry it read, and what it presented: a redirect URI
      and the challenge its verifier hashes to. */
  datatype Attempt = Attempt(code: CodeId, entry: Code, redirect: nat, verifierChallenge: nat)

  /** A request without a session, stashed until the login is done. */
  datatype Pending = Pending(challenge: nat, redirect: nat, expires: int)

  /** `minted` and `hashes` are all code ids and password hashes ever used; `issued` all tokens
      ever issued, in order. */
  datatype State = State(now: int, users: map<UserId, User>, codes: map<CodeId, Code>, tokens: map<TokenId, Token>,
                         pending: map<nat, Pending>, approvals: map<nat, Approval>, attempts: map<nat, Attempt>,
                         minted: set<CodeId>, hashes: set<Hash>, issued: seq<Token>)

  datatype Step =
    | Tick(clock: int)
    | Stash(id: nat, challenge: nat, redirect: nat, ttl: nat)   // no session yet: stash the request
    | Resume(id: nat, approval: nat, user: UserId)              // back with a session: take it
    | Begin(approval: nat, user: UserId, challenge: nat, redirect: nat)
    | Approve(approval: nat, code: CodeId, ttl: nat)
    | Peek(attempt: nat, code: CodeId, redirect: nat, verifierChallenge: nat)
    | Redeem(attempt: nat, token: TokenId)
    | ChangePassword(user: UserId, hash: Hash, mustChange: bool)
    | Rehash(user: UserId, hash: Hash)
    | SetBlocked(user: UserId, blocked: bool)
    | Prune
    | Revoke(token: TokenId)

  predicate ValidGrant(a: Attempt) {
    a.redirect == a.entry.redirect && a.verifierChallenge == a.entry.challenge
  }

  predicate MayLogIn(u: User) {
    !u.blocked && !u.mustChangePassword
  }

  function ReadSession(s: State, user: UserId, challenge: nat, redirect: nat): Approval
    requires user in s.users
  {
    Approval(user, s.users[user].hash, s.users[user].epoch, challenge, redirect)
  }

  /** The approval transaction: the session's password hash must still be the user's. */
  function ApproveStep(s: State, a: Approval, code: CodeId, ttl: nat): State {
    if a.user in s.users && s.users[a.user].hash == a.hash && MayLogIn(s.users[a.user]) && code !in s.minted then
      s.(codes := s.codes[code := Code(a.user, a.challenge, a.redirect, s.now + ttl, a.epoch)],
         minted := s.minted + {code})
    else s
  }

  function PeekStep(s: State, attempt: nat, code: CodeId, redirect: nat, verifierChallenge: nat): State {
    if attempt !in s.attempts && code in s.codes && s.now < s.codes[code].expires then
      s.(attempts := s.attempts[attempt := Attempt(code, s.codes[code], redirect, verifierChallenge)])
    else s
  }

  /** The redemption transaction. Consuming the code comes first, and returning false still
      commits it. */
  function RedeemStep(s: State, a: Attempt, token: TokenId): State {
    if a.code !in s.codes || s.codes[a.code].expires <= s.now then s
    else
      var consumed := s.codes[a.code];
      var t := s.(codes := s.codes - {a.code});
      if consumed.user != a.entry.user || !ValidGrant(a) then t
      else if consumed.user !in s.users || !MayLogIn(s.users[consumed.user]) || token in s.tokens then t
      else
        var issue := Token(consumed.user, a.code, consumed.epoch);
        t.(tokens := t.tokens[token := issue], issued := t.issued + [issue])
  }

  /** A password change deletes the user's codes and tokens in the same transaction. */
  function ChangePasswordStep(s: State, user: UserId, hash: Hash, mustChange: bool): State {
    if user !in s.users || hash in s.hashes then s
    else
      s.(users := s.users[user := s.users[user].(hash := hash, epoch := s.users[user].epoch + 1,
                                                 mustChangePassword := mustChange)],
         hashes := s.hashes + {hash},
         codes := map c | c in s.codes && s.codes[c].user != user :: s.codes[c],
         tokens := map t | t in s.tokens && s.tokens[t].user != user :: s.tokens[t])
  }

  function Next(s: State, step: Step): State {
    match step
    case Tick(clock) => if s.now <= clock then s.(now := clock) else s
    case Stash(id, challenge, redirect, ttl) =>
      s.(pending := s.pending[id := Pending(challenge, redirect, s.now + ttl)])
    case Resume(id, approval, user) =>
      if id in s.pending && s.now < s.pending[id].expires && user in s.users && approval !in s.approvals then
        s.(pending := s.pending - {id},
           approvals := s.approvals[approval := ReadSession(s, user, s.pending[id].challenge, s.pending[id].redirect)])
      else s
    case Begin(approval, user, challenge, redirect) =>
      if user in s.users && approval !in s.approvals then
        s.(approvals := s.approvals[approval := ReadSession(s, user, challenge, redirect)])
      else s
    case Approve(approval, code, ttl) =>
      if approval in s.approvals then
        ApproveStep(s.(approvals := s.approvals - {approval}), s.approvals[approval], code, ttl)
      else s
    case Peek(attempt, code, redirect, verifierChallenge) => PeekStep(s, attempt, code, redirect, verifierChallenge)
    case Redeem(attempt, token) => if attempt in s.attempts then RedeemStep(s, s.attempts[attempt], token) else s
    case ChangePassword(user, hash, mustChange) => ChangePasswordStep(s, user, hash, mustChange)
    case Rehash(user, hash) =>
      if user in s.users && hash !in s.hashes then
        s.(users := s.users[user := s.users[user].(hash := hash)], hashes := s.hashes + {hash})
      else s
    case SetBlocked(user, blocked) =>
      if user in s.users then s.(users := s.users[user := s.users[user].(blocked := blocked)]) else s
    case Prune =>
      s.(codes := map c | c in s.codes && s.now <= s.codes[c].expires :: s.codes[c],
         pending := map p | p in s.pending && s.now <= s.pending[p].expires :: s.pending[p])
    case Revoke(token) => s.(tokens := s.tokens - {token})
  }

  function Execute(s: State, steps: seq<Step>): State
    decreases |steps|
  {
    if steps == [] then s else Execute(Next(s, steps[0]), steps[1..])
  }

  predicate Initial(s: State) {
    && s.codes == map[] && s.tokens == map[] && s.approvals == map[] && s.attempts == map[]
    && s.minted == {} && s.issued == [] && (forall u | u in s.users :: s.users[u].hash in s.hashes)
  }

  // ---- The invariant ---------------------------------------------------------------------------

  /** Approvals: a hash that is still current stands for the current password. */
  ghost predicate ApprovalsOk(s: State) {
    && (forall u :: u in s.users ==> s.users[u].hash in s.hashes)
    && (forall a :: a in s.approvals ==>
          var p := s.approvals[a];
          && p.hash in s.hashes
          && (p.user in s.users && s.users[p.user].hash == p.hash ==> s.users[p.user].epoch == p.epoch))
  }

  ghost predicate CodesOk(s: State) {
    && (forall c :: c in s.codes ==>
          c in s.minted && s.codes[c].user in s.users && s.codes[c].epoch == s.users[s.codes[c].user].epoch)
    && (forall t :: t in s.tokens ==>
          s.tokens[t].user in s.users && s.tokens[t].epoch == s.users[s.tokens[t].user].epoch)
  }

  ghost predicate AttemptsOk(s: State) {
    forall a :: a in s.attempts ==>
      && s.attempts[a].code in s.minted
      && (s.attempts[a].code in s.codes ==> s.codes[s.attempts[a].code] == s.attempts[a].entry)
  }

  ghost predicate IssuedOk(s: State) {
    && (forall i :: 0 <= i < |s.issued| ==> s.issued[i].code in s.minted && s.issued[i].code !in s.codes)
    && (forall i, j :: 0 <= i < j < |s.issued| ==> s.issued[i].code != s.issued[j].code)
  }

  ghost predicate Inv(s: State) {
    ApprovalsOk(s) && CodesOk(s) && AttemptsOk(s) && IssuedOk(s)
  }

  lemma NextKeepsApprovals(s: State, step: Step)
    requires ApprovalsOk(s)
    ensures ApprovalsOk(Next(s, step))
  {
  }

  lemma NextKeepsCodes(s: State, step: Step)
    requires ApprovalsOk(s) && CodesOk(s)
    ensures CodesOk(Next(s, step))
  {
  }

  lemma NextKeepsAttempts(s: State, step: Step)
    requires CodesOk(s) && AttemptsOk(s)
    ensures AttemptsOk(Next(s, step))
  {
  }

  lemma NextKeepsIssued(s: State, step: Step)
    requires CodesOk(s) && IssuedOk(s)
    ensures IssuedOk(Next(s, step))
  {
  }

  lemma {:induction false} NextKeepsInv(s: State, step: Step)
    requires Inv(s)
    ensures Inv(Next(s, step))
  {
    NextKeepsApprovals(s, step);
    NextKeepsCodes(s, step);
    NextKeepsAttempts(s, step);
    NextKeepsIssued(s, step);
  }

  lemma {:induction false} ExecuteKeepsInv(s: State, steps: seq<Step>)
    requires Inv(s)
    ensures Inv(Execute(s, steps))
    decreases |steps|
  {
    if steps != [] {
      NextKeepsInv(s, steps[0]);
      ExecuteKeepsInv(Next(s, steps[0]), steps[1..]);
    }
  }

  // ---- The guarantees ------------------------------------------------------------------------------

  /** Each authorization code yields at most one token. */
  lemma OneTokenPerCode(s: State, steps: seq<Step>, i: nat, j: nat)
    requires Initial(s) && i < j < |Execute(s, steps).issued|
    ensures Execute(s, steps).issued[i].code != Execute(s, steps).issued[j].code
  {
    ExecuteKeepsInv(s, steps);
  }

  /** Every live code and every live token was approved by a session authenticated with the
      user's current password. */
  lemma LiveGrantsAreCurrent(s: State, steps: seq<Step>)
    requires Initial(s)
    ensures var end := Execute(s, steps);
      && (forall c :: c in end.codes ==>
            end.codes[c].user in end.users && end.codes[c].epoch == end.users[end.codes[c].user].epoch)
      && (forall t :: t in end.tokens ==>
            end.tokens[t].user in end.users && end.tokens[t].epoch == end.users[end.tokens[t].user].epoch)
  {
    ExecuteKeepsInv(s, steps);
  }

  /** The attempt presents a live code with its redirect URI and a verifier for its challenge, and
      the user who approved it is neither blocked nor has to change the password. */
  predicate Redeemable(s: State, a: Attempt) {
    && a.code in s.codes && s.now < s.codes[a.code].expires
    && a.redirect == s.codes[a.code].redirect && a.verifierChallenge == s.codes[a.code].challenge
    && s.codes[a.code].user in s.users
    && !s.users[s.codes[a.code].user].blocked && !s.users[s.codes[a.code].user].mustChangePassword
  }

  /** A token is issued exactly to a redemption that presented the code's redirect URI and a
      verifier for its challenge, for the user who approved it and may still log in. */
  lemma {:induction false} TokenIsIssuedExactly(s: State, step: Step)
    requires Inv(s)
    ensures Next(s, step).issued != s.issued <==>
            && step.Redeem? && step.attempt in s.attempts && step.token !in s.tokens
            && Redeemable(s, s.attempts[step.attempt])
    ensures Next(s, step).issued != s.issued ==>
      var code := s.attempts[step.attempt].code;
      var token := Token(s.codes[code].user, code, s.codes[code].epoch);
      && Next(s, step).issued == s.issued + [token] && Next(s, step).tokens == s.tokens[step.token := token]
      && Next(s, step).codes == s.codes - {code}
  {
    if step.Redeem? && step.attempt in s.attempts {
      var a := s.attempts[step.attempt];
      assert a.code in s.codes ==> s.codes[a.code] == a.entry;
    }
  }

  /** A redemption gets past the peek exactly if the code is there and has not expired. */
  lemma AttemptBeginsExactly(s: State, step: Step)
    ensures Next(s, step).attempts != s.attempts <==>
            && step.Peek? && step.attempt !in s.attempts && step.code in s.codes
            && s.now < s.codes[step.code].expires
  {
    var t := Next(s, step);
    if step.Peek? && t != s { assert step.attempt in t.attempts; }
  }

  /** A code that can never yield a token any more. */
  predicate Dead(s: State, c: CodeId) {
    c in s.minted && (c in s.codes ==> s.codes[c].expires <= s.now)
  }

  /** Between the two logs nobody got a token for the code. */
  ghost predicate NoneFor(before: seq<Token>, after: seq<Token>, c: CodeId) {
    before <= after && forall i :: |before| <= i < |after| ==> after[i].code != c
  }

  lemma NoneForJoins(a: seq<Token>, b: seq<Token>, d: seq<Token>, c: CodeId)
    requires NoneFor(a, b, c) && NoneFor(b, d, c)
    ensures NoneFor(a, d, c)
  {
  }

  lemma NextKeepsDead(s: State, step: Step, c: CodeId)
    requires Dead(s, c)
    ensures Dead(Next(s, step), c) && NoneFor(s.issued, Next(s, step).issued, c)
  {
  }

  lemma {:induction false} DeadForever(s: State, steps: seq<Step>, c: CodeId)
    requires Dead(s, c)
    ensures NoneFor(s.issued, Execute(s, steps).issued, c)
    decreases |steps|
  {
    if steps != [] {
      NextKeepsDead(s, steps[0], c);
      DeadForever(Next(s, steps[0]), steps[1..], c);
      NoneForJoins(s.issued, Next(s, steps[0]).issued, Execute(s, steps).issued, c);
    }
  }

  /** A redemption that got past the peek burns the code, whatever verifier it presented: after
      it, nobody ever gets a token for the code. */
  lemma AnyAttemptBurnsCode(s: State, attempt: nat, token: TokenId, steps: seq<Step>)
    requires Inv(s) && attempt in s.attempts
    ensures var t, c := Next(s, Redeem(attempt, token)), s.attempts[attempt].code;
      Dead(t, c) && NoneFor(t.issued, Execute(t, steps).issued, c)
  {
    DeadForever(Next(s, Redeem(attempt, token)), steps, s.attempts[attempt].code);
  }

  // ---- A login that goes well ------------------------------------------------------------------------

  /** The step leaves the stashed request alone. */
  predicate SparesRequest(step: Step, id: nat) {
    !(step.Stash? && step.id == id) && !(step.Resume? && step.id == id)
  }

  /** The step does not use the approval, nor write or block the user. */
  predicate SparesApproval(step: Step, approval: nat, user: UserId) {
    match step
    case Approve(a, _, _) => a != approval
    case ChangePassword(u, _, _) => u != user
    case Rehash(u, _) => u != user
    case SetBlocked(u, blocked) => u != user || !blocked
    case _ => true
  }

  /** The step does not redeem the code, nor change the user's password or block the user. */
  predicate SparesCode(s: State, step: Step, code: CodeId, user: UserId) {
    match step
    case Redeem(attempt, _) => attempt in s.attempts ==> s.attempts[attempt].code != code
    case ChangePassword(u, _, _) => u != user
    case SetBlocked(u, blocked) => u != user || !blocked
    case _ => true
  }

  ghost predicate AllSpareCode(s: State, steps: seq<Step>, code: CodeId, user: UserId)
    decreases |steps|
  {
    steps != [] ==> SparesCode(s, steps[0], code, user) && AllSpareCode(Next(s, steps[0]), steps[1..], code, user)
  }

  lemma ClockTicksOn(s: State, step: Step)
    ensures s.now <= Next(s, step).now
  {
  }

  lemma {:induction false} ClockRunsOn(s: State, steps: seq<Step>)
    ensures s.now <= Execute(s, steps).now
    decreases |steps|
  {
    if steps != [] {
      ClockTicksOn(s, steps[0]);
      ClockRunsOn(Next(s, steps[0]), steps[1..]);
    }
  }

  lemma RequestOutlastsStep(s: State, step: Step, id: nat)
    requires id in s.pending && SparesRequest(step, id) && s.now < s.pending[id].expires
    ensures id in Next(s, step).pending && Next(s, step).pending[id] == s.pending[id]
  {
  }

  lemma {:induction false} RequestWaits(s: State, steps: seq<Step>, id: nat)
    requires id in s.pending && (forall k | 0 <= k < |steps| :: SparesRequest(steps[k], id))
    requires Execute(s, steps).now < s.pending[id].expires
    ensures var end := Execute(s, steps); id in end.pending && end.pending[id] == s.pending[id]
    decreases |steps|
  {
    if steps != [] {
      ClockRunsOn(s, steps);
      RequestOutlastsStep(s, steps[0], id);
      RequestWaits(Next(s, steps[0]), steps[1..], id);
    }
  }

  /** A stashed request is resumed, in time, as it was made, for whoever has logged in; and the
      session counts with the password of that moment. */
  lemma RequestIsResumed(s: State, id: nat, challenge: nat, redirect: nat, ttl: nat, steps: seq<Step>, approval: nat,
                         user: UserId)
    requires forall k | 0 <= k < |steps| :: SparesRequest(steps[k], id)
    requires var back := Execute(Next(s, Stash(id, challenge, redirect, ttl)), steps);
      back.now < s.now + ttl && user in back.users && approval !in back.approvals
    ensures var back := Execute(Next(s, Stash(id, challenge, redirect, ttl)), steps);
      var t := Next(back, Resume(id, approval, user));
      t.approvals == Next(back, Begin(approval, user, challenge, redirect)).approvals && id !in t.pending
  {
    RequestWaits(Next(s, Stash(id, challenge, redirect, ttl)), steps, id);
  }

  /** A session is read exactly for a request that has none open yet, by a user who exists; a stashed
      request counts until its expiry. */
  lemma SessionIsReadExactly(s: State, step: Step)
    requires step.Resume? || step.Begin?
    ensures Next(s, step) != s <==>
            && step.approval !in s.approvals && step.user in s.users
            && (step.Resume? ==> step.id in s.pending && s.pending[step.id].expires > s.now)
  {
    var t := Next(s, step);
    if t != s { assert step.approval in t.approvals; }
  }

  /** The approval's session is the user's, and the user is neither blocked nor has to change the
      password. */
  predicate Approvable(s: State, approval: nat) {
    && approval in s.approvals && s.approvals[approval].user in s.users
    && s.users[s.approvals[approval].user].hash == s.approvals[approval].hash
    && !s.users[s.approvals[approval].user].blocked && !s.users[s.approvals[approval].user].mustChangePassword
  }

  lemma ApprovalOutlastsStep(s: State, step: Step, approval: nat)
    requires Approvable(s, approval) && SparesApproval(step, approval, s.approvals[approval].user)
    ensures Approvable(Next(s, step), approval) && Next(s, step).approvals[approval] == s.approvals[approval]
  {
  }

  lemma {:induction false} ApprovalWaits(s: State, steps: seq<Step>, approval: nat)
    requires Approvable(s, approval)
    requires forall k | 0 <= k < |steps| :: SparesApproval(steps[k], approval, s.approvals[approval].user)
    ensures var end := Execute(s, steps); Approvable(end, approval) && end.approvals[approval] == s.approvals[approval]
    decreases |steps|
  {
    if steps != [] {
      ApprovalOutlastsStep(s, steps[0], approval);
      ApprovalWaits(Next(s, steps[0]), steps[1..], approval);
    }
  }

  lemma ApprovalIsGranted(s: State, approval: nat, code: CodeId, ttl: nat)
    requires Approvable(s, approval) && code !in s.minted
    ensures var t, p := Next(s, Approve(approval, code, ttl)), s.approvals[approval];
      && t.users == s.users && approval !in t.approvals
      && t.codes == s.codes[code := Code(p.user, p.challenge, p.redirect, s.now + ttl, p.epoch)]
  {
  }

  /** A code is minted exactly for an approval whose session is still the user's, of a user who is
      neither blocked nor has to change the password. */
  lemma CodeIsMintedExactly(s: State, step: Step)
    ensures Next(s, step).minted != s.minted <==>
            step.Approve? && Approvable(s, step.approval) && step.code !in s.minted
  {
    var t := Next(s, step);
    if step.Approve? && t.minted != s.minted { assert step.code in t.minted; }
    if step.Approve? && Approvable(s, step.approval) { assert step.code in t.minted; }
  }

  /** An approved request gets its code, for the session's user, challenge and redirect URI, good
      for the whole lifetime. */
  lemma CodeIsMinted(s: State, user: UserId, approval: nat, challenge: nat, redirect: nat, steps: seq<Step>,
                     code: CodeId, ttl: nat)
    requires user in s.users && !s.users[user].blocked && !s.users[user].mustChangePassword
    requires approval !in s.approvals && forall k | 0 <= k < |steps| :: SparesApproval(steps[k], approval, user)
    requires code !in Execute(Next(s, Begin(approval, user, challenge, redirect)), steps).minted
    ensures var last := Execute(Next(s, Begin(approval, user, challenge, redirect)), steps);
      var t := Next(last, Approve(approval, code, ttl));
      && t.codes == last.codes[code := Code(user, challenge, redirect, last.now + ttl, s.users[user].epoch)]
      && user in t.users && !t.users[user].blocked && !t.users[user].mustChangePassword && approval !in t.approvals
  {
    var begun := Next(s, Begin(approval, user, challenge, redirect));
    assert begun.approvals[approval] == ReadSession(s, user, challenge, redirect) && begun.users == s.users;
    ApprovalWaits(begun, steps, approval);
    ApprovalIsGranted(Execute(begun, steps), approval, code, ttl);
  }

  /** The code and its user are as they were when the code was minted. */
  predicate Waits(s: State, code: CodeId, entry: Code) {
    && code in s.codes && s.codes[code] == entry && entry.user in s.users
    && !s.users[entry.user].blocked && !s.users[entry.user].mustChangePassword
  }

  lemma CodeOutlastsStep(s: State, step: Step, code: CodeId, entry: Code)
    requires Inv(s) && Waits(s, code, entry) && SparesCode(s, step, code, entry.user) && s.now < entry.expires
    ensures Waits(Next(s, step), code, entry)
  {
  }

  lemma {:induction false} CodeWaits(s: State, steps: seq<Step>, code: CodeId, entry: Code)
    requires Inv(s) && Waits(s, code, entry) && AllSpareCode(s, steps, code, entry.user)
    requires Execute(s, steps).now < entry.expires
    ensures Inv(Execute(s, steps)) && Waits(Execute(s, steps), code, entry)
    decreases |steps|
  {
    if steps != [] {
      ClockRunsOn(s, steps);
      NextKeepsInv(s, steps[0]);
      CodeOutlastsStep(s, steps[0], code, entry);
      CodeWaits(Next(s, steps[0]), steps[1..], code, entry);
    }
  }

  lemma AttemptOutlastsStep(s: State, step: Step, attempt: nat)
    requires attempt in s.attempts
    ensures attempt in Next(s, step).attempts && Next(s, step).attempts[attempt] == s.attempts[attempt]
  {
  }

  lemma {:induction false} AttemptStays(s: State, steps: seq<Step>, attempt: nat)
    requires attempt in s.attempts
    ensures attempt in Execute(s, steps).attempts && Execute(s, steps).attempts[attempt] == s.attempts[attempt]
    decreases |steps|
  {
    if steps != [] {
      AttemptOutlastsStep(s, steps[0], attempt);
      AttemptStays(Next(s, steps[0]), steps[1..], attempt);
    }
  }

  /** A code that nobody else redeems, of a user whose password is not changed and who is not
      blocked meanwhile: a peek and a redemption before it expires, with the approved redirect
      URI and a verifier for the challenge, yield exactly one token, for that user and code. */
  lemma {:induction false} LoginYieldsToken(s: State, code: CodeId, entry: Code, before: seq<Step>, attempt: nat,
                                            between: seq<Step>, token: TokenId)
    requires Inv(s) && Waits(s, code, entry) && AllSpareCode(s, before, code, entry.user)
    requires attempt !in Execute(s, before).attempts
    requires var peeked := Next(Execute(s, before), Peek(attempt, code, entry.redirect, entry.challenge));
      && AllSpareCode(peeked, between, code, entry.user)
      && Execute(peeked, between).now < entry.expires && token !in Execute(peeked, between).tokens
    ensures var peeked := Next(Execute(s, before), Peek(attempt, code, entry.redirect, entry.challenge));
      var last, grant := Execute(peeked, between), Token(entry.user, code, entry.epoch);
      var end := Next(last, Redeem(attempt, token));
      end.issued == last.issued + [grant] && end.tokens == last.tokens[token := grant] && code !in end.codes
  {
    var first := Execute(s, before);
    var peeked := Next(first, Peek(attempt, code, entry.redirect, entry.challenge));
    ClockRunsOn(peeked, between);
    CodeWaits(s, before, code, entry);
    NextKeepsInv(first, Peek(attempt, code, entry.redirect, entry.challenge));
    CodeWaits(peeked, between, code, entry);
    AttemptStays(peeked, between, attempt);
    TokenIsIssuedExactly(Execute(peeked, between), Redeem(attempt, token));
  }

  /** So an approval whose password hash is still the user's, of a user who is neither blocked nor
      has to change the password, leads to exactly one token for that user and the new code, if
      code and user are left alone and both requests come before the code expires. */
  lemma {:induction false} ApprovedLoginYieldsToken(s: State, approval: nat, code: CodeId, ttl: nat, before: seq<Step>,
                                                    attempt: nat, between: seq<Step>, token: TokenId)
    requires Inv(s) && Approvable(s, approval) && code !in s.minted
    requires var minted, p := Next(s, Approve(approval, code, ttl)), s.approvals[approval];
      AllSpareCode(minted, before, code, p.user) && attempt !in Execute(minted, before).attempts
    requires var minted, p := Next(s, Approve(approval, code, ttl)), s.approvals[approval];
      var peeked := Next(Execute(minted, before), Peek(attempt, code, p.redirect, p.challenge));
      && AllSpareCode(peeked, between, code, p.user)
      && Execute(peeked, between).now < s.now + ttl && token !in Execute(peeked, between).tokens
    ensures var minted, p := Next(s, Approve(approval, code, ttl)), s.approvals[approval];
      var peeked := Next(Execute(minted, before), Peek(attempt, code, p.redirect, p.challenge));
      var last, grant := Execute(peeked, between), Token(p.user, code, p.epoch);
      var end := Next(last, Redeem(attempt, token));
      end.issued == last.issued + [grant] && end.tokens == last.tokens[token := grant] && code !in end.codes
  {
    var p := s.approvals[approval];
    NextKeepsInv(s, Approve(approval, code, ttl));
    ApprovalIsGranted(s, approval, code, ttl);
    LoginYieldsToken(Next(s, Approve(approval, code, ttl)), code,
                     Code(p.user, p.challenge, p.redirect, s.now + ttl, p.epoch), before, attempt, between, token);
  }

  // ---- What ends a grant ---------------------------------------------------------------------------------

  /** A password change takes the user's codes and tokens, and nobody else's. */
  lemma PasswordChangeRevokes(s: State, user: UserId, hash: Hash, mustChange: bool)
    requires user in s.users && hash !in s.hashes
    ensures var t := Next(s, ChangePassword(user, hash, mustChange));
      && t.users == s.users[user := User(hash, s.users[user].epoch + 1, s.users[user].blocked, mustChange)]
      && (forall c :: c in t.codes <==> c in s.codes && s.codes[c].user != user)
      && (forall k :: k in t.tokens <==> k in s.tokens && s.tokens[k].user != user)
      && t.issued == s.issued
  {
  }

  /** Rehashing the password takes nothing, but no session read before gets a code any more. */
  lemma RehashStalesSessions(s: State, user: UserId, hash: Hash, approval: nat)
    requires Inv(s) && user in s.users && hash !in s.hashes
    ensures var t := Next(s, Rehash(user, hash));
      && t.users == s.users[user := s.users[user].(hash := hash)] && t.codes == s.codes && t.tokens == s.tokens
      && (approval in s.approvals && s.approvals[approval].user == user ==> Stale(t, approval))
  {
  }

  /** Pruning takes the codes and the stashed requests whose expiry has passed, and nothing else. */
  lemma PruneTakesExpired(s: State)
    ensures var t := Next(s, Prune);
      && (forall c :: c in t.codes <==> c in s.codes && !(s.codes[c].expires < s.now))
      && (forall p :: p in t.pending <==> p in s.pending && !(s.pending[p].expires < s.now))
      && (forall c :: c in t.codes ==> t.codes[c] == s.codes[c])
      && (forall p :: p in t.pending ==> t.pending[p] == s.pending[p])
      && t.tokens == s.tokens && t.users == s.users
  {
  }

  /** A revoked token is gone, and nothing else. */
  lemma RevokeTakesToken(s: State, token: TokenId)
    ensures var t := Next(s, Revoke(token));
      t.tokens.Keys == s.tokens.Keys - {token} && t.codes == s.codes && t.users == s.users && t.issued == s.issued
  {
  }

  /** Nothing between the two logs is the user's. */
  ghost predicate NoneOf(before: seq<Token>, after: seq<Token>, user: UserId) {
    before <= after && forall i :: |before| <= i < |after| ==> after[i].user != user
  }

  lemma NoneOfJoins(a: seq<Token>, b: seq<Token>, d: seq<Token>, user: UserId)
    requires NoneOf(a, b, user) && NoneOf(b, d, user)
    ensures NoneOf(a, d, user)
  {
  }

  lemma BlockOutlastsStep(s: State, step: Step, user: UserId)
    requires user in s.users && s.users[user].blocked && step != SetBlocked(user, false)
    ensures var t := Next(s, step);
      user in t.users && t.users[user].blocked && NoneOf(s.issued, t.issued, user)
  {
  }

  lemma {:induction false} BlockedGetNothing(s: State, steps: seq<Step>, user: UserId)
    requires user in s.users && s.users[user].blocked
    requires forall k | 0 <= k < |steps| :: steps[k] != SetBlocked(user, false)
    ensures NoneOf(s.issued, Execute(s, steps).issued, user)
    decreases |steps|
  {
    if steps != [] {
      BlockOutlastsStep(s, steps[0], user);
      BlockedGetNothing(Next(s, steps[0]), steps[1..], user);
      NoneOfJoins(s.issued, Next(s, steps[0]).issued, Execute(s, steps).issued, user);
    }
  }

  lemma BlockIsSet(s: State, user: UserId, blocked: bool)
    requires user in s.users
    ensures var t := Next(s, SetBlocked(user, blocked));
      t.users == s.users[user := s.users[user].(blocked := blocked)] && t.issued == s.issued
  {
  }

  /** From the moment a user is blocked until the block is lifted, no token is issued to that user. */
  lemma BlockedUserGetsNoToken(s: State, steps: seq<Step>, user: UserId)
    requires user in s.users && forall k | 0 <= k < |steps| :: steps[k] != SetBlocked(user, false)
    ensures NoneOf(s.issued, Execute(Next(s, SetBlocked(user, true)), steps).issued, user)
  {
    BlockIsSet(s, user, true);
    BlockedGetNothing(Next(s, SetBlocked(user, true)), steps, user);
  }

  /** The session was read under another password hash than the user's. */
  predicate Stale(s: State, approval: nat) {
    && approval in s.approvals
    && (s.approvals[approval].user in s.users ==>
          s.users[s.approvals[approval].user].hash != s.approvals[approval].hash)
  }

  lemma StaleAfterStep(s: State, step: Step, approval: nat)
    requires Inv(s) && Stale(s, approval) && !(step.Approve? && step.approval == approval)
    ensures Stale(Next(s, step), approval)
  {
  }

  lemma {:induction false} StaleForever(s: State, steps: seq<Step>, approval: nat)
    requires Inv(s) && Stale(s, approval)
    requires forall k | 0 <= k < |steps| :: !(steps[k].Approve? && steps[k].approval == approval)
    ensures Stale(Execute(s, steps), approval)
    decreases |steps|
  {
    if steps != [] {
      NextKeepsInv(s, steps[0]);
      StaleAfterStep(s, steps[0], approval);
      StaleForever(Next(s, steps[0]), steps[1..], approval);
    }
  }

  /** A session that was read under an earlier password hash never gets a code. */
  lemma StaleSessionGetsNoCode(s: State, steps: seq<Step>, approval: nat, code: CodeId, ttl: nat)
    requires Inv(s) && Stale(s, approval)
    requires forall k | 0 <= k < |steps| :: !(steps[k].Approve? && steps[k].approval == approval)
    ensures Next(Execute(s, steps), Approve(approval, code, ttl)).codes == Execute(s, steps).codes
  {
    StaleForever(s, steps, approval);
  }

  /** Once the clock reaches its expiry a code is dead. */
  lemma ClockRetiresCode(s: State, c: CodeId, clock: int)
    requires Inv(s) && c in s.codes && s.codes[c].expires <= clock && s.now <= clock
    ensures Dead(Next(s, Tick(clock)), c)
  {
  }
}
