/**
 Refresh-token rotation (internal/identity/repository.go:169-184, 362-541) and the hourly
 clean-up of expired rows (internal/identity/cleanup/cleanup.go:50-54).  Each operation is
 one transaction on the token table.  Two constraints of the table matter
 (migrations/ecom/0055_identity_schema.up.sql:85-89): token_hash is unique, and a CHECK
 lists the reasons a token may be revoked for.
 */
module RefreshTokens {
  import opened Options
  import opened Faults

  type Hash = int
  type Family = int
  type UserId = int

  datatype Reason = Rotation | Logout | Theft | Admin | Expiry | PasswordReset

  /** The reasons the shipped CHECK admits. */
  const SHIPPED: set<Reason> := {Rotation, Logout, Theft, Admin, Expiry}

  /** A row; rows stand in insertion order. */
  datatype Token = Token(user: UserId, hash: Hash, family: Family, expiresAt: int, revoked: Option<Reason>)

  datatype Outcome = NotFound | FamilyRevoked | Expired | Failed | Succeeded

  predicate Live(t: Token) { t.revoked.None? }

  // ---- the table's operations ----

  predicate HasHash(tokens: seq<Token>, h: Hash) {
    exists i :: 0 <= i < |tokens| && tokens[i].hash == h
  }

  /** The row of a hash, |tokens| when there is none. */
  function RowOf(tokens: seq<Token>, h: Hash): (k: nat)
    ensures k <= |tokens|
    ensures k < |tokens| ==> tokens[k].hash == h
    ensures k == |tokens| <==> !HasHash(tokens, h)
  {
    if |tokens| == 0 then 0
    else if tokens[0].hash == h then 0
    else
      assert HasHash(tokens[1..], h) ==> HasHash(tokens, h) by {
        assert forall i :: 0 <= i < |tokens| - 1 ==> tokens[1..][i] == tokens[i + 1];
      }
      assert HasHash(tokens, h) ==> HasHash(tokens[1..], h) by {
        assert forall i :: 1 <= i < |tokens| ==> tokens[i] == tokens[1..][i - 1];
      }
      RowOf(tokens[1..], h) + 1
  }

  /** UPDATE … SET revoked WHERE the row is hit and still live. */
  function RevokeWhere(tokens: seq<Token>, hit: Token -> bool, reason: Reason): (r: seq<Token>)
    ensures |r| == |tokens|
    ensures forall i :: 0 <= i < |r| ==>
      r[i] == if hit(tokens[i]) && Live(tokens[i]) then tokens[i].(revoked := Some(reason)) else tokens[i]
  {
    if |tokens| == 0 then []
    else
      var t := tokens[0];
      [if hit(t) && Live(t) then t.(revoked := Some(reason)) else t] + RevokeWhere(tokens[1..], hit, reason)
  }

  predicate AnyLive(tokens: seq<Token>, hit: Token -> bool) {
    exists i :: 0 <= i < |tokens| && hit(tokens[i]) && Live(tokens[i])
  }

  /** The CHECK refuses the whole statement as soon as it would write a reason it does not list. */
  function Revoked(tokens: seq<Token>, hit: Token -> bool, reason: Reason, reasons: set<Reason>): seq<Token> {
    if reason in reasons then RevokeWhere(tokens, hit, reason) else tokens
  }

  function OfFamily(f: Family): Token -> bool { (t: Token) => t.family == f }
  function OfUser(u: UserId): Token -> bool { (t: Token) => t.user == u }
  function OfHash(h: Hash): Token -> bool { (t: Token) => t.hash == h }

  /** DELETE of the rows that expired before the cutoff, revoked or not. */
  function CleanedUp(tokens: seq<Token>, cutoff: int): seq<Token> {
    if |tokens| == 0 then []
    else
      var front, last := CleanedUp(tokens[..|tokens| - 1], cutoff), tokens[|tokens| - 1];
      if last.expiresAt < cutoff then front else front + [last]
  }

  /** INSERT; the unique index refuses a hash that is already there. */
  function Insert(tokens: seq<Token>, t: Token): Option<seq<Token>> {
    if HasHash(tokens, t.hash) then None else Some(tokens + [t])
  }

  /**
   RotateRefreshToken at time `now`.  In the theft branch a failed transaction is
   ignored and the caller is told the same.
   */
  function Rotate(tokens: seq<Token>, current: Hash, next: Hash, expiresAt: int, now: int, fault: TxFault,
                  reasons: set<Reason>): (seq<Token>, Outcome)
  {
    var k := RowOf(tokens, current);
    if k == |tokens| then (tokens, NotFound)
    else if !Live(tokens[k]) then
      (if fault == RolledBack then tokens else Revoked(tokens, OfFamily(tokens[k].family), Theft, reasons),
       FamilyRevoked)
    else if now > tokens[k].expiresAt then (tokens, Expired)
    else
      var inserted := Insert(tokens[k := tokens[k].(revoked := Some(Rotation))],
                             Token(tokens[k].user, next, tokens[k].family, expiresAt, None));
      if Rotation !in reasons || inserted.None? || fault == RolledBack then (tokens, Failed)
      else (inserted.value, if fault == CommitAckLost then Failed else Succeeded)
  }

  // ---- what every transaction keeps ----

  predicate HashesUnique(tokens: seq<Token>) {
    forall i, j :: 0 <= i < j < |tokens| ==> tokens[i].hash != tokens[j].hash
  }

  /** Only the last row of a family can be live, so at most one is; a family has one user. */
  predicate ChainOk(tokens: seq<Token>) {
    forall i, j :: 0 <= i < j < |tokens| && tokens[i].family == tokens[j].family ==>
      !Live(tokens[i]) && tokens[i].user == tokens[j].user
  }

  predicate Inv(tokens: seq<Token>) {
    HashesUnique(tokens) && ChainOk(tokens)
  }

  /** The family has no live token. */
  predicate Dead(tokens: seq<Token>, f: Family) { !AnyLive(tokens, OfFamily(f)) }

  /** No row is removed or re-issued, and a revoked row keeps its reason. */
  predicate Extends(before: seq<Token>, after: seq<Token>) {
    |before| <= |after| && forall i :: 0 <= i < |before| ==>
      && after[i].(revoked := None) == before[i].(revoked := None)
      && (!Live(before[i]) ==> after[i] == before[i])
  }

  lemma {:induction false} OnlyRevokingKeepsInv(tokens: seq<Token>, r: seq<Token>)
    requires Inv(tokens) && Extends(tokens, r) && |r| == |tokens|
    ensures Inv(r)
  {
    forall i, j | 0 <= i < j < |r|
      ensures r[i].hash != r[j].hash
      ensures r[i].family == r[j].family ==> !Live(r[i]) && r[i].user == r[j].user
    {
      assert r[i].(revoked := None) == tokens[i].(revoked := None);
      assert r[j].(revoked := None) == tokens[j].(revoked := None);
    }
  }

  lemma {:induction false} RevokedKeepsInv(tokens: seq<Token>, hit: Token -> bool, reason: Reason, reasons: set<Reason>)
    requires Inv(tokens)
    ensures Inv(Revoked(tokens, hit, reason, reasons)) && Extends(tokens, Revoked(tokens, hit, reason, reasons))
  {
    OnlyRevokingKeepsInv(tokens, Revoked(tokens, hit, reason, reasons));
  }

  /** An update leaves no live row among those hit exactly when its reason is admitted or there was none. */
  lemma {:induction false} RevokesAllIff(tokens: seq<Token>, hit: Token -> bool, reason: Reason, reasons: set<Reason>)
    requires forall t: Token :: hit(t) == hit(t.(revoked := Some(reason)))
    ensures !AnyLive(Revoked(tokens, hit, reason, reasons), hit) <==> reason in reasons || !AnyLive(tokens, hit)
    ensures !AnyLive(tokens, hit) ==> Revoked(tokens, hit, reason, reasons) == tokens
  {
    var r := Revoked(tokens, hit, reason, reasons);
    if !AnyLive(tokens, hit) { assert forall i :: 0 <= i < |tokens| ==> r[i] == tokens[i]; }
  }

  /** A row can join a table when its family's rows are revoked and have its user. */
  lemma {:induction false} InsertKeepsInvIff(tokens: seq<Token>, t: Token)
    requires Inv(tokens) && !HasHash(tokens, t.hash)
    ensures Inv(tokens + [t]) <==>
      forall i :: 0 <= i < |tokens| && tokens[i].family == t.family ==> !Live(tokens[i]) && tokens[i].user == t.user
  {
    var r := tokens + [t];
    if forall i :: 0 <= i < |tokens| && tokens[i].family == t.family ==> !Live(tokens[i]) && tokens[i].user == t.user {
      forall i, j | 0 <= i < j < |r| ensures r[i].hash != r[j].hash { assert r[i] == tokens[i]; }
    } else {
      var i :| 0 <= i < |tokens| && tokens[i].family == t.family && !(!Live(tokens[i]) && tokens[i].user == t.user);
      assert r[i] == tokens[i] && r[|tokens|] == t;
    }
  }

  /** The other rows of a live token's family are revoked and have its user. */
  lemma {:induction false} LiveIsAlone(tokens: seq<Token>, k: nat, i: nat)
    requires Inv(tokens) && k < |tokens| && i < |tokens| && i != k
    requires tokens[i].family == tokens[k].family && Live(tokens[k])
    ensures i < k && !Live(tokens[i]) && tokens[i].user == tokens[k].user
  { }

  /** The table with row k rotated into `next`. */
  function Rotated(tokens: seq<Token>, k: nat, next: Hash, expiresAt: int): seq<Token>
    requires k < |tokens|
  {
    tokens[k := tokens[k].(revoked := Some(Rotation))] + [Token(tokens[k].user,
                                                                next, tokens[k].family, expiresAt, None)]
  }

  lemma {:induction false} RotatedKeepsInv(tokens: seq<Token>, k: nat, next: Hash, expiresAt: int)
    requires Inv(tokens) && k < |tokens| && Live(tokens[k]) && !HasHash(tokens, next)
    ensures Inv(Rotated(tokens, k, next, expiresAt)) && Extends(tokens, Rotated(tokens, k, next, expiresAt))
  {
    var work := tokens[k := tokens[k].(revoked := Some(Rotation))];
    var t := Token(tokens[k].user, next, tokens[k].family, expiresAt, None);
    OnlyRevokingKeepsInv(tokens, work);
    SameHashes(tokens, work, next);
    forall i | 0 <= i < |work| && work[i].family == t.family ensures !Live(work[i]) && work[i].user == t.user {
      if i != k { LiveIsAlone(tokens, k, i); }
    }
    InsertKeepsInvIff(work, t);
  }

  lemma {:induction false} SameHashes(a: seq<Token>, b: seq<Token>, h: Hash)
    requires |a| == |b| && forall i :: 0 <= i < |a| ==> a[i].hash == b[i].hash
    ensures HasHash(a, h) <==> HasHash(b, h)
  {
    if HasHash(a, h) {
      var i :| 0 <= i < |a| && a[i].hash == h;
      assert b[i].hash == h;
    }
    if HasHash(b, h) {
      var i :| 0 <= i < |b| && b[i].hash == h;
      assert a[i].hash == h;
    }
  }

  /** The token is live and unexpired, the new hash unused and the reason admitted. */
  predicate Rotatable(tokens: seq<Token>, current: Hash, next: Hash, now: int, reasons: set<Reason>) {
    var k := RowOf(tokens, current);
    k < |tokens| && Live(tokens[k]) && now <= tokens[k].expiresAt && !HasHash(tokens, next) && Rotation in reasons
  }

  /**
   The table is rotated exactly when the token is rotatable and the transaction commits;
   success is reported exactly when its acknowledgement arrives too.  Apart from that
   only the answer to a revoked token changes the table.
   */
  lemma {:induction false} RotatesIff(tokens: seq<Token>, current: Hash, next: Hash, expiresAt: int, now: int,
                                      fault: TxFault, reasons: set<Reason>)
    ensures var (after, out) := Rotate(tokens, current, next, expiresAt, now, fault, reasons);
      var k := RowOf(tokens, current);
      && (out.Succeeded? <==> Rotatable(tokens, current, next, now, reasons) && fault == NoFault)
      && (Rotatable(tokens, current, next, now, reasons) && fault != RolledBack ==>
            after == Rotated(tokens, k, next, expiresAt))
      && (out.NotFound? <==> !HasHash(tokens, current))
      && (out.FamilyRevoked? <==> k < |tokens| && !Live(tokens[k]))
      && (out.Expired? <==> k < |tokens| && Live(tokens[k]) && now > tokens[k].expiresAt)
      && (!out.FamilyRevoked? && !(Rotatable(tokens, current, next, now, reasons) && fault != RolledBack) ==>
            after == tokens)
  {
    var k := RowOf(tokens, current);
    if k < |tokens| { SameHashes(tokens, tokens[k := tokens[k].(revoked := Some(Rotation))], next); }
  }

  /** The new token is its family's only live one and belongs to the same user. */
  lemma {:induction false} SuccessorIsAlone(tokens: seq<Token>, k: nat, next: Hash, expiresAt: int)
    requires Inv(tokens) && k < |tokens| && Live(tokens[k])
    ensures var after := Rotated(tokens, k, next, expiresAt);
      && |after| == |tokens| + 1 && after[|tokens|] == Token(tokens[k].user, next, tokens[k].family, expiresAt, None)
      && after[k] == tokens[k].(revoked := Some(Rotation))
      && (forall i :: 0 <= i < |tokens| && tokens[i].family == tokens[k].family ==> !Live(after[i]))
      && (forall i :: 0 <= i < |tokens| && i != k ==> after[i] == tokens[i])
  {
    forall i | 0 <= i < |tokens| && tokens[i].family == tokens[k].family && i != k ensures !Live(tokens[i]) {
      LiveIsAlone(tokens, k, i);
    }
  }

  lemma {:induction false} RotateKeepsInv(tokens: seq<Token>, current: Hash, next: Hash, expiresAt: int, now: int,
                                          fault: TxFault, reasons: set<Reason>)
    requires Inv(tokens)
    ensures var after := Rotate(tokens, current, next, expiresAt, now, fault, reasons).0;
      Inv(after) && Extends(tokens, after)
  {
    var (after, out) := Rotate(tokens, current, next, expiresAt, now, fault, reasons);
    var k := RowOf(tokens, current);
    RotatesIff(tokens, current, next, expiresAt, now, fault, reasons);
    if out.FamilyRevoked? { RevokedKeepsInv(tokens, OfFamily(tokens[k].family), Theft, reasons); }
    else if after != tokens { RotatedKeepsInv(tokens, k, next, expiresAt); }
  }

  /**
   Presenting a revoked token is always answered as theft; it kills the family exactly
   when the update lands or nothing in the family was live.
   */
  lemma {:induction false} TheftKillsFamilyIff(tokens: seq<Token>, current: Hash, next: Hash, expiresAt: int, now: int,
                                               fault: TxFault, reasons: set<Reason>)
    requires var k := RowOf(tokens, current); k < |tokens| && !Live(tokens[k])
    ensures var (after, out) := Rotate(tokens, current, next, expiresAt, now, fault, reasons);
      var f := tokens[RowOf(tokens, current)].family;
      && out == FamilyRevoked
      && (Dead(after, f) <==> (fault != RolledBack && Theft in reasons) || Dead(tokens, f))
  {
    var k := RowOf(tokens, current);
    var after := Rotate(tokens, current, next, expiresAt, now, fault, reasons).0;
    RevokesAllIff(tokens, OfFamily(tokens[k].family), Theft, reasons);
  }

  // ---- the clean-up ----

  /** Exactly the rows that had not expired by the cutoff are left. */
  lemma {:induction false} CleanedUpIff(tokens: seq<Token>, cutoff: int, t: Token)
    ensures t in CleanedUp(tokens, cutoff) <==> t in tokens && t.expiresAt >= cutoff
  {
    if |tokens| > 0 {
      CleanedUpIff(tokens[..|tokens| - 1], cutoff, t);
      assert tokens == tokens[..|tokens| - 1] + [tokens[|tokens| - 1]];
    }
  }

  lemma {:induction false} CleanUpKeepsInv(tokens: seq<Token>, cutoff: int)
    requires Inv(tokens)
    ensures Inv(CleanedUp(tokens, cutoff))
  {
    if |tokens| > 0 {
      var front, last := tokens[..|tokens| - 1], tokens[|tokens| - 1];
      assert forall i :: 0 <= i < |front| ==> front[i] == tokens[i];
      CleanUpKeepsInv(front, cutoff);
      var kept := CleanedUp(front, cutoff);
      forall i | 0 <= i < |kept|
        ensures kept[i].hash != last.hash
        ensures kept[i].family == last.family ==> !Live(kept[i]) && kept[i].user == last.user
      {
        CleanedUpIff(front, cutoff, kept[i]);
        var j :| 0 <= j < |front| && front[j] == kept[i];
      }
    }
  }

  /** With unique hashes a row is found by its hash. */
  lemma {:induction false} FoundByHash(tokens: seq<Token>, t: Token)
    requires HashesUnique(tokens) && t in tokens
    ensures HasHash(tokens, t.hash) && tokens[RowOf(tokens, t.hash)] == t
  {
    var i :| 0 <= i < |tokens| && tokens[i] == t;
    assert tokens[i].hash == t.hash;
    assert HasHash(tokens, t.hash);
    assert tokens[RowOf(tokens, t.hash)].hash == tokens[i].hash;
  }

  class TokenStore {
    var tokens: seq<Token>
    const reasons: set<Reason>

    constructor (reasons: set<Reason>)
      ensures tokens == [] && this.reasons == reasons
    {
      tokens := [];
      this.reasons := reasons;
    }

    method CreateSession(user: UserId, hash: Hash, family: Family, expiresAt: int) returns (ok: bool)
      modifies this
      ensures ok <==> !HasHash(old(tokens), hash)
      ensures tokens == Table(old(tokens), Create(user, hash, family, expiresAt), reasons)
      ensures tokens == old(tokens) + (if ok then [Token(user, hash, family, expiresAt, None)] else [])
    {
      var inserted := Insert(tokens, Token(user, hash, family, expiresAt, None));
      ok := inserted.Some?;
      if ok { tokens := inserted.value; }
    }

    /** The statements of the rotation transaction, in order; the table is left alone unless it commits. */
    method RotateRefreshToken(current: Hash, next: Hash, expiresAt: int, now: int, fault: TxFault)
      returns (out: Outcome)
      modifies this
      ensures (tokens, out) == Rotate(old(tokens), current, next, expiresAt, now, fault, reasons)
      ensures tokens == Table(old(tokens), Present(current, next, expiresAt, now, fault), reasons)
      ensures Inv(old(tokens)) ==> Inv(tokens) && Extends(old(tokens), tokens)
      ensures out.Succeeded? <==> Rotatable(old(tokens), current, next, now, reasons) && fault == NoFault
    {
      if Inv(tokens) { RotateKeepsInv(tokens, current, next, expiresAt, now, fault, reasons); }
      RotatesIff(tokens, current, next, expiresAt, now, fault, reasons);
      var k := RowOf(tokens, current);
      if k == |tokens| { return NotFound; }
      var cur := tokens[k];
      if !Live(cur) {
        if fault != RolledBack { tokens := Revoked(tokens, OfFamily(cur.family), Theft, reasons); }
        return FamilyRevoked;
      }
      if now > cur.expiresAt { return Expired; }
      if Rotation !in reasons { return Failed; }
      var work := tokens[k := cur.(revoked := Some(Rotation))];
      var inserted := Insert(work, Token(cur.user, next, cur.family, expiresAt, None));
      if inserted.None? || fault == RolledBack { return Failed; }
      tokens := inserted.value;
      return if fault == CommitAckLost then Failed else Succeeded;
    }

    /** Not found is reported when no live row has the hash, an error when the CHECK refuses. */
    method RevokeToken(hash: Hash) returns (out: Outcome)
      modifies this
      ensures tokens == Table(old(tokens), LogOut(hash), reasons) && |tokens| == |old(tokens)|
      ensures forall i :: 0 <= i < |tokens| && (tokens[i].hash != hash || !Live(old(tokens)[i])) ==>
        tokens[i] == old(tokens)[i]
      ensures out.NotFound? <==> !AnyLive(old(tokens), OfHash(hash))
      ensures out.Succeeded? <==> AnyLive(old(tokens), OfHash(hash)) && !AnyLive(tokens, OfHash(hash))
    {
      RevokesAllIff(tokens, OfHash(hash), Logout, reasons);
      out := if !AnyLive(tokens, OfHash(hash)) then NotFound else if Logout in reasons then Succeeded else Failed;
      tokens := Revoked(tokens, OfHash(hash), Logout, reasons);
    }

    /** Leaves the family dead, or untouched when the CHECK refuses; no other row changes. */
    method RevokeTokenFamily(family: Family) returns (ok: bool)
      modifies this
      ensures tokens == Table(old(tokens), KillFamily(family), reasons)
      ensures ok <==> !AnyLive(tokens, OfFamily(family))
      ensures ok <==> Theft in reasons || !AnyLive(old(tokens), OfFamily(family))
      ensures |tokens| == |old(tokens)|
      ensures forall i :: 0 <= i < |tokens| && (!ok || tokens[i].family != family || !Live(old(tokens)[i])) ==>
        tokens[i] == old(tokens)[i]
    {
      RevokesAllIff(tokens, OfFamily(family), Theft, reasons);
      ok := Theft in reasons || !AnyLive(tokens, OfFamily(family));
      tokens := Revoked(tokens, OfFamily(family), Theft, reasons);
    }

    /** Logs the user out everywhere, or nowhere when the CHECK refuses the reason. */
    method RevokeAllUserTokens(user: UserId) returns (ok: bool)
      modifies this
      ensures tokens == Table(old(tokens), ResetPassword(user), reasons) && |tokens| == |old(tokens)|
      ensures forall i :: 0 <= i < |tokens| && (tokens[i].user != user || !Live(old(tokens)[i])) ==>
        tokens[i] == old(tokens)[i]
      ensures ok <==> !AnyLive(tokens, OfUser(user))
      ensures ok <==> PasswordReset in reasons || !AnyLive(old(tokens), OfUser(user))
      ensures reasons == SHIPPED ==> tokens == old(tokens)
    {
      RevokesAllIff(tokens, OfUser(user), PasswordReset, reasons);
      ok := PasswordReset in reasons || !AnyLive(tokens, OfUser(user));
      tokens := Revoked(tokens, OfUser(user), PasswordReset, reasons);
    }

    /** Deleting an account revokes its live tokens, unless the CHECK refuses, and then deletes nothing. */
    method SoftDeleteUser(user: UserId) returns (ok: bool)
      modifies this
      ensures tokens == Table(old(tokens), DeleteUser(user), reasons) && |tokens| == |old(tokens)|
      ensures ok <==> !AnyLive(tokens, OfUser(user))
      ensures ok <==> Admin in reasons || !AnyLive(old(tokens), OfUser(user))
      ensures forall i :: 0 <= i < |tokens| && (tokens[i].user != user || !Live(old(tokens)[i])) ==>
        tokens[i] == old(tokens)[i]
    {
      RevokesAllIff(tokens, OfUser(user), Admin, reasons);
      ok := Admin in reasons || !AnyLive(tokens, OfUser(user));
      tokens := Revoked(tokens, OfUser(user), Admin, reasons);
    }

    /** Forgets exactly the rows that expired before the cutoff. */
    method CleanUp(cutoff: int)
      modifies this
      ensures tokens == Table(old(tokens), Step.CleanUp(cutoff), reasons)
      ensures Inv(old(tokens)) ==> Inv(tokens)
      ensures forall t :: t in tokens <==> t in old(tokens) && t.expiresAt >= cutoff
    {
      ghost var before := tokens;
      if Inv(tokens) { CleanUpKeepsInv(tokens, cutoff); }
      tokens := CleanedUp(tokens, cutoff);
      forall t ensures t in tokens <==> t in before && t.expiresAt >= cutoff { CleanedUpIff(before, cutoff, t); }
    }
  }

  // ---- whole runs ----

  /** The table, and every family root and token hash that was ever drawn. */
  datatype Registry = Registry(tokens: seq<Token>, families: set<Family>, hashes: set<Hash>)

  datatype Step =
    | Create(user: UserId, hash: Hash, family: Family, expiresAt: int)
    | Present(hash: Hash, next: Hash, expiresAt: int, now: int, fault: TxFault)
    | LogOut(hash: Hash)
    | KillFamily(family: Family)
    | ResetPassword(user: UserId)
    | DeleteUser(user: UserId)
    | CleanUp(cutoff: int)

  /** A drawn hash may collide with a row that is there, but a deleted one is not drawn again. */
  predicate Drawable(r: Registry, h: Hash) { h in r.hashes ==> HasHash(r.tokens, h) }

  /** Roots and hashes are random (internal/identity/service.go:501-513): no root is drawn twice. */
  predicate Enabled(r: Registry, step: Step) {
    && (step.Create? ==> step.family !in r.families && Drawable(r, step.hash))
    && (step.Present? ==> Drawable(r, step.next))
  }

  function Table(tokens: seq<Token>, step: Step, reasons: set<Reason>): seq<Token> {
    match step
    case Create(user, hash, family, expiresAt) =>
      var inserted := Insert(tokens, Token(user, hash, family, expiresAt, None));
      if inserted.None? then tokens else inserted.value
    case Present(hash, next, expiresAt, now, fault) => Rotate(tokens, hash, next, expiresAt, now, fault, reasons).0
    case LogOut(hash) => Revoked(tokens, OfHash(hash), Logout, reasons)
    case KillFamily(family) => Revoked(tokens, OfFamily(family), Theft, reasons)
    case ResetPassword(user) => Revoked(tokens, OfUser(user), PasswordReset, reasons)
    case DeleteUser(user) => Revoked(tokens, OfUser(user), Admin, reasons)
    case CleanUp(cutoff) => CleanedUp(tokens, cutoff)
  }

  function Apply(r: Registry, step: Step, reasons: set<Reason>): Registry {
    Registry(Table(r.tokens, step, reasons),
             r.families + (if step.Create? then {step.family} else {}),
             r.hashes + (if step.Create? then {step.hash} else if step.Present? then {step.next} else {}))
  }

  predicate CanRun(r: Registry, steps: seq<Step>, reasons: set<Reason>)
    decreases |steps|
  {
    |steps| > 0 ==> Enabled(r, steps[0]) && CanRun(Apply(r, steps[0], reasons), steps[1..], reasons)
  }

  function Run(r: Registry, steps: seq<Step>, reasons: set<Reason>): Registry
    requires CanRun(r, steps, reasons)
    decreases |steps|
  {
    if |steps| == 0 then r else Run(Apply(r, steps[0], reasons), steps[1..], reasons)
  }

  /** The chains are right and everything in the table was drawn. */
  predicate RegistryInv(r: Registry) {
    && Inv(r.tokens)
    && forall i :: 0 <= i < |r.tokens| ==> r.tokens[i].family in r.families && r.tokens[i].hash in r.hashes
  }

  /** Every transaction but the clean-up only appends and revokes. */
  lemma {:induction false} TableExtends(tokens: seq<Token>, step: Step, reasons: set<Reason>)
    requires Inv(tokens) && !step.CleanUp?
    requires step.Create? ==> forall i :: 0 <= i < |tokens| ==> tokens[i].family != step.family
    ensures Inv(Table(tokens, step, reasons)) && Extends(tokens, Table(tokens, step, reasons))
  {
    match step
    case Create(user, hash, family, expiresAt) =>
      if !HasHash(tokens, hash) { InsertKeepsInvIff(tokens, Token(user, hash, family, expiresAt, None)); }
    case Present(hash, next, expiresAt, now, fault) =>
      RotateKeepsInv(tokens, hash, next, expiresAt, now, fault, reasons);
    case LogOut(hash) => RevokedKeepsInv(tokens, OfHash(hash), Logout, reasons);
    case KillFamily(family) => RevokedKeepsInv(tokens, OfFamily(family), Theft, reasons);
    case ResetPassword(user) => RevokedKeepsInv(tokens, OfUser(user), PasswordReset, reasons);
    case DeleteUser(user) => RevokedKeepsInv(tokens, OfUser(user), Admin, reasons);
  }

  /** A row that is new has the hash of the step and a family that is new or has a live token. */
  lemma {:induction false} NewRow(r: Registry, step: Step, reasons: set<Reason>)
    requires RegistryInv(r) && Enabled(r, step) && |Table(r.tokens, step, reasons)| > |r.tokens|
    requires !step.CleanUp?
    ensures var after := Table(r.tokens, step, reasons);
      && |after| == |r.tokens| + 1
      && (step.Create? || step.Present?)
      && after[|r.tokens|].hash == (if step.Create? then step.hash else step.next)
      && (if step.Create? then after[|r.tokens|].family == step.family
          else after[|r.tokens|].family in r.families && !Dead(r.tokens, after[|r.tokens|].family))
  {
    if step.Present? {
      var k := RowOf(r.tokens, step.hash);
      RotatesIff(r.tokens, step.hash, step.next, step.expiresAt, step.now, step.fault, reasons);
      assert OfFamily(r.tokens[k].family)(r.tokens[k]) && Live(r.tokens[k]);
    }
  }

  lemma {:induction false} StepKeepsInv(r: Registry, step: Step, reasons: set<Reason>)
    requires RegistryInv(r) && Enabled(r, step)
    ensures RegistryInv(Apply(r, step, reasons))
  {
    var after := Table(r.tokens, step, reasons);
    var r' := Apply(r, step, reasons);
    if step.CleanUp? {
      CleanUpKeepsInv(r.tokens, step.cutoff);
      forall i | 0 <= i < |after| ensures after[i].family in r'.families && after[i].hash in r'.hashes {
        CleanedUpIff(r.tokens, step.cutoff, after[i]);
      }
    } else {
      TableExtends(r.tokens, step, reasons);
      if |after| > |r.tokens| { NewRow(r, step, reasons); }
      forall i | 0 <= i < |after| ensures after[i].family in r'.families && after[i].hash in r'.hashes {
        if i < |r.tokens| { assert after[i].(revoked := None) == r.tokens[i].(revoked := None); }
      }
    }
  }

  /** A family that was drawn and has no live token never gets one again. */
  lemma {:induction false} StepKeepsDead(r: Registry, step: Step, reasons: set<Reason>, f: Family)
    requires RegistryInv(r) && Enabled(r, step) && f in r.families && Dead(r.tokens, f)
    ensures Dead(Table(r.tokens, step, reasons), f)
  {
    var after := Table(r.tokens, step, reasons);
    if step.CleanUp? {
      forall i | 0 <= i < |after| && after[i].family == f ensures !Live(after[i]) {
        CleanedUpIff(r.tokens, step.cutoff, after[i]);
        assert OfFamily(f)(after[i]);
      }
    } else {
      TableExtends(r.tokens, step, reasons);
      if |after| > |r.tokens| { NewRow(r, step, reasons); }
      forall i | 0 <= i < |after| && after[i].family == f ensures !Live(after[i]) {
        if i < |r.tokens| {
          assert after[i].(revoked := None) == r.tokens[i].(revoked := None);
          assert OfFamily(f)(r.tokens[i]);
        }
      }
    }
  }

  /**
   Over every run, under every CHECK: each family has at most one live token and it is
   the last of its chain, and a family without a live token never gets one again.
   */
  lemma {:induction false} RunKeepsTokens(r: Registry, steps: seq<Step>, reasons: set<Reason>, f: Family)
    requires RegistryInv(r) && CanRun(r, steps, reasons)
    ensures RegistryInv(Run(r, steps, reasons))
    ensures f in r.families && Dead(r.tokens, f) ==> Dead(Run(r, steps, reasons).tokens, f)
    decreases |steps|
  {
    if |steps| > 0 {
      StepKeepsInv(r, steps[0], reasons);
      if f in r.families && Dead(r.tokens, f) { StepKeepsDead(r, steps[0], reasons, f); }
      RunKeepsTokens(Apply(r, steps[0], reasons), steps[1..], reasons, f);
    }
  }

  // ---- a revoked token presented again ----

  /** No clean-up of the run reaches the expiry. */
  predicate Survives(steps: seq<Step>, expiresAt: int) {
    forall i :: 0 <= i < |steps| && steps[i].CleanUp? ==> steps[i].cutoff <= expiresAt
  }

  /** A revoked row stays as it is until a clean-up past its expiry deletes it. */
  lemma {:induction false} RevokedRowStep(r: Registry, step: Step, reasons: set<Reason>, t: Token)
    requires RegistryInv(r) && Enabled(r, step) && t in r.tokens && !Live(t)
    ensures t in Table(r.tokens, step, reasons) <==> Survives([step], t.expiresAt)
    ensures t !in Table(r.tokens, step, reasons) ==> !HasHash(Table(r.tokens, step, reasons), t.hash)
  {
    var after := Table(r.tokens, step, reasons);
    assert [step][0] == step;
    if step.CleanUp? {
      CleanedUpIff(r.tokens, step.cutoff, t);
      if HasHash(after, t.hash) {
        var i :| 0 <= i < |after| && after[i].hash == t.hash;
        CleanedUpIff(r.tokens, step.cutoff, after[i]);
        FoundByHash(r.tokens, after[i]);
        FoundByHash(r.tokens, t);
      }
    } else {
      TableExtends(r.tokens, step, reasons);
      var i :| 0 <= i < |r.tokens| && r.tokens[i] == t;
      assert after[i] == t;
    }
  }

  /** A hash whose row is gone stays gone. */
  lemma {:induction false} GoneStep(r: Registry, step: Step, reasons: set<Reason>, h: Hash)
    requires RegistryInv(r) && Enabled(r, step) && h in r.hashes && !HasHash(r.tokens, h)
    ensures !HasHash(Table(r.tokens, step, reasons), h)
  {
    var after := Table(r.tokens, step, reasons);
    if !step.CleanUp? { TableExtends(r.tokens, step, reasons); }
    forall i | 0 <= i < |after| ensures after[i].hash != h {
      if step.CleanUp? { CleanedUpIff(r.tokens, step.cutoff, after[i]); }
      else if i < |r.tokens| { assert after[i].(revoked := None) == r.tokens[i].(revoked := None); }
      else { NewRow(r, step, reasons); }
    }
  }

  lemma {:induction false} GoneForEver(r: Registry, steps: seq<Step>, reasons: set<Reason>, h: Hash)
    requires RegistryInv(r) && CanRun(r, steps, reasons) && h in r.hashes && !HasHash(r.tokens, h)
    ensures !HasHash(Run(r, steps, reasons).tokens, h)
    decreases |steps|
  {
    if |steps| > 0 {
      StepKeepsInv(r, steps[0], reasons);
      GoneStep(r, steps[0], reasons, h);
      GoneForEver(Apply(r, steps[0], reasons), steps[1..], reasons, h);
    }
  }

  /** Over every run a revoked row is still there, unchanged, exactly when no clean-up reached its expiry. */
  lemma {:induction false} RevokedRowStaysIff(r: Registry, steps: seq<Step>, reasons: set<Reason>, t: Token)
    requires RegistryInv(r) && CanRun(r, steps, reasons) && t in r.tokens && !Live(t)
    ensures t in Run(r, steps, reasons).tokens <==> Survives(steps, t.expiresAt)
    ensures t !in Run(r, steps, reasons).tokens ==> !HasHash(Run(r, steps, reasons).tokens, t.hash)
    decreases |steps|
  {
    if |steps| > 0 {
      var next := Apply(r, steps[0], reasons);
      StepKeepsInv(r, steps[0], reasons);
      RevokedRowStep(r, steps[0], reasons, t);
      assert Survives([steps[0]], t.expiresAt) <==> (steps[0].CleanUp? ==> steps[0].cutoff <= t.expiresAt) by {
        assert [steps[0]][0] == steps[0];
      }
      assert forall i :: 1 <= i < |steps| ==> steps[i] == steps[1..][i - 1];
      if t in next.tokens {
        RevokedRowStaysIff(next, steps[1..], reasons, t);
      } else {
        GoneForEver(next, steps[1..], reasons, t.hash);
        FoundByHashAbsent(Run(next, steps[1..], reasons).tokens, t);
      }
    }
  }

  lemma {:induction false} FoundByHashAbsent(tokens: seq<Token>, t: Token)
    requires !HasHash(tokens, t.hash)
    ensures t !in tokens
  { }

  /**
   A revoked token presented again, after anything, is answered as theft exactly when no
   clean-up has reached its expiry, and as unknown otherwise.  When it is answered as
   theft and that lands under a CHECK that admits theft, the family is dead for the rest
   of the run.
   */
  lemma {:induction false} ReuseIsTheftIff(r: Registry, t: Token, between: seq<Step>, again: Step, rest: seq<Step>,
                                           reasons: set<Reason>)
    requires RegistryInv(r) && t in r.tokens && !Live(t) && CanRun(r, between, reasons)
    requires again.Present? && again.hash == t.hash && Enabled(Run(r, between, reasons), again)
    requires CanRun(Apply(Run(r, between, reasons), again, reasons), rest, reasons)
    ensures var mid := Run(r, between, reasons);
      var out := Rotate(mid.tokens, t.hash, again.next, again.expiresAt, again.now, again.fault, reasons).1;
      && out == (if Survives(between, t.expiresAt) then FamilyRevoked else NotFound)
      && (out == FamilyRevoked && again.fault != RolledBack && Theft in reasons ==>
            Dead(Run(Apply(mid, again, reasons), rest, reasons).tokens, t.family))
  {
    var mid := Run(r, between, reasons);
    RunKeepsTokens(r, between, reasons, t.family);
    RevokedRowStaysIff(r, between, reasons, t);
    if Survives(between, t.expiresAt) {
      FoundByHash(mid.tokens, t);
      TheftKillsFamilyIff(mid.tokens, t.hash, again.next, again.expiresAt, again.now, again.fault, reasons);
      StepKeepsInv(mid, again, reasons);
      RunKeepsTokens(Apply(mid, again, reasons), rest, reasons, t.family);
    }
  }

  // ---- where the code falls short ----

  /** The theft branch ignores a failed transaction: the thief is turned away, the family lives on. */
  lemma {:induction false} LostTheftLeavesFamilyLive()
    ensures var tokens := [Token(1, 10, 5, 100, Some(Rotation)), Token(1, 11, 5, 100, None)];
      var (after, out) := Rotate(tokens, 10, 12, 200, 50, RolledBack, SHIPPED);
      Inv(tokens) && out == FamilyRevoked && !Dead(after, 5)
  {
    var tokens := [Token(1, 10, 5, 100, Some(Rotation)), Token(1, 11, 5, 100, None)];
    assert RowOf(tokens, 10) == 0;
    assert OfFamily(5)(tokens[1]) && Live(tokens[1]);
  }

  lemma {:induction false} CleanedUpPair(stale: Token, kept: Token, cutoff: int)
    requires stale.expiresAt < cutoff <= kept.expiresAt
    ensures CleanedUp([stale, kept], cutoff) == [kept]
  {
    assert [stale, kept][..1] == [stale] && [stale][..0] == [];
    assert CleanedUp([stale], cutoff) == [];
  }

  /** A token that is not the one row of the table is unknown. */
  lemma {:induction false} UnknownToOneRow(t: Token, h: Hash, next: Hash, expiresAt: int, now: int)
    requires t.hash != h && Live(t)
    ensures Rotate([t], h, next, expiresAt, now, NoFault, SHIPPED) == ([t], NotFound) && !Dead([t], t.family)
  {
    assert !HasHash([t], h);
    assert OfFamily(t.family)([t][0]);
  }

  /**
   A long-lived session: the clean-up has deleted the row of its first, stolen token, so
   presenting that token is answered as unknown and the session lives on.
   */
  lemma {:induction false} CleanedUpTheftGoesUnseen(stolen: Token, live: Token)
    requires stolen == Token(1, 10, 5, 100, Some(Rotation)) && live == Token(1, 11, 5, 900, None)
    ensures var r := Registry([stolen, live], {5}, {10, 11});
      var tokens := Apply(r, CleanUp(200), SHIPPED).tokens;
      && RegistryInv(r) && Rotate(tokens, 10, 12, 999, 300, NoFault, SHIPPED) == (tokens, NotFound)
      && !Dead(tokens, 5)
  {
    CleanedUpPair(stolen, live, 200);
    UnknownToOneRow(live, 10, 12, 999, 300);
  }

  /**
   A rotation whose acknowledgement is lost reports a failure; the honest client that
   tries again with the token it still has is taken for a thief and loses the session.
   */
  lemma {:induction false} RetryAfterLostAckKillsFamily(tokens: seq<Token>, current: Hash, next: Hash, next': Hash,
                                                        expiresAt: int, now: int, reasons: set<Reason>)
    requires Inv(tokens) && Rotatable(tokens, current, next, now, reasons) && Theft in reasons
    ensures var (after, out) := Rotate(tokens, current, next, expiresAt, now, CommitAckLost, reasons);
      var (end, out') := Rotate(after, current, next', expiresAt, now, NoFault, reasons);
      out == Failed && out' == FamilyRevoked && Dead(end, tokens[RowOf(tokens, current)].family)
  {
    var k := RowOf(tokens, current);
    RotatesIff(tokens, current, next, expiresAt, now, CommitAckLost, reasons);
    var after := Rotated(tokens, k, next, expiresAt);
    RotatedKeepsInv(tokens, k, next, expiresAt);
    assert after[k] in after;
    FoundByHash(after, after[k]);
    TheftKillsFamilyIff(after, current, next', expiresAt, now, NoFault, reasons);
  }

  /**
   After a password reset the user has no live token exactly when the CHECK admits
   'password_reset' or there was none before; the shipped CHECK does not admit it, so
   there a reset revokes nothing.
   */
  lemma {:induction false} ResetLogsOutIff(tokens: seq<Token>, user: UserId, reasons: set<Reason>)
    ensures !AnyLive(Table(tokens, ResetPassword(user), reasons), OfUser(user)) <==>
      PasswordReset in reasons || !AnyLive(tokens, OfUser(user))
    ensures reasons == SHIPPED ==> Table(tokens, ResetPassword(user), reasons) == tokens
  {
    RevokesAllIff(tokens, OfUser(user), PasswordReset, reasons);
  }
}
