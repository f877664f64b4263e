/** Refresh tokens: rotation inside a family, replay detection and logout, over any sequence of calls. */
module RefreshTokens {
  import opened Common

  /** The stored SHA-256 of a token; the token itself is never stored. */
  type Digest = nat
  type UserId = nat
  type Family = nat
  type Time = int

  datatype Row = Row(hash: Digest, user: UserId, family: Family, expires: Time, revokedAt: Option<Time>)

  datatype Reply = Issued(user: UserId) | Unknown | Replayed | Expired | Conflict

  // ---------------------------------------------------------------------------
  // The table
  // ---------------------------------------------------------------------------

  /** The row with a digest; the column is unique. */
  function IndexOf(rows: seq<Row>, hash: Digest): (r: Option<nat>)
    ensures r.Some? ==> r.value < |rows| && rows[r.value].hash == hash
    ensures r.None? ==> forall i :: 0 <= i < |rows| ==> rows[i].hash != hash
  {
    if rows == [] then None
    else if rows[|rows| - 1].hash == hash then Some(|rows| - 1)
    else IndexOf(rows[..|rows| - 1], hash)
  }

  function Revoked(row: Row, now: Time): Row {
    if row.revokedAt.None? then row.(revokedAt := Some(now)) else row
  }

  function FamilyRevoked(rows: seq<Row>, family: Family, now: Time): (r: seq<Row>)
    ensures |r| == |rows|
    ensures forall i :: 0 <= i < |rows| ==> r[i] == if rows[i].family == family then Revoked(rows[i], now) else rows[i]
  {
    seq(|rows|, i requires 0 <= i < |rows| => if rows[i].family == family then Revoked(rows[i], now) else rows[i])
  }

  /** The insert: refused by the unique column when the digest is taken. */
  function Created(rows: seq<Row>, hash: Digest, user: UserId, family: Family, expires: Time): (bool, seq<Row>) {
    if IndexOf(rows, hash).Some? then (false, rows) else (true, rows + [Row(hash, user, family, expires, None)])
  }

  /** rotate_refresh_token: the reply and the rows it leaves. */
  function Rotated(rows: seq<Row>, hash: Digest, next: Digest, now: Time, lifetime: Time): (Reply, seq<Row>) {
    match IndexOf(rows, hash)
    case None => (Unknown, rows)
    case Some(i) =>
      if rows[i].revokedAt.Some? then (Replayed, FamilyRevoked(rows, rows[i].family, now))
      else if now >= rows[i].expires then (Expired, rows)
      else
        var (ok, after) := Created(rows[i := Revoked(rows[i], now)], next, rows[i].user, rows[i].family, now + lifetime);
        if ok then (Issued(rows[i].user), after) else (Conflict, rows)
  }

  /** The rows after a refresh whose caller commits, or rolls back, what a refused rotation wrote. */
  function Refreshed(rows: seq<Row>, hash: Digest, next: Digest, now: Time, lifetime: Time, commits: bool)
    : (Reply, seq<Row>)
  {
    var (reply, after) := Rotated(rows, hash, next, now, lifetime);
    (reply, if reply.Issued? || commits then after else rows)
  }

  /** revoke_refresh_family. */
  function LoggedOut(rows: seq<Row>, hash: Digest, now: Time): seq<Row> {
    match IndexOf(rows, hash)
    case None => rows
    case Some(i) => FamilyRevoked(rows, rows[i].family, now)
  }

  class TokenTable {
    var rows: seq<Row>

    constructor ()
      ensures rows == []
    {
      rows := [];
    }

    /** create_refresh_token, in a given family or in a new one. */
    method CreateRefreshToken(
      hash: Digest, user: UserId, family: Option<Family>, newFamily: Family, now: Time, lifetime: Time)
      returns (ok: bool)
      modifies this
      ensures (ok, rows) == Created(old(rows), hash, user, if family.Some? then family.value else newFamily, now + lifetime)
    {
      var expires := now + lifetime;
      ok := IndexOf(rows, hash).None?;
      if ok {
        rows := rows + [Row(hash, user, if family.Some? then family.value else newFamily, expires, None)];
      }
    }

    method RotateRefreshToken(hash: Digest, next: Digest, now: Time, lifetime: Time) returns (reply: Reply)
      modifies this
      ensures (reply, rows) == Rotated(old(rows), hash, next, now, lifetime)
    {
      var found := IndexOf(rows, hash);
      if found.None? {
        return Unknown;
      }
      var i := found.value;
      var row := rows[i];
      if row.revokedAt.Some? {
        rows := FamilyRevoked(rows, row.family, now);
        return Replayed;
      }
      if now >= row.expires {
        return Expired;
      }
      var before := rows;
      rows := rows[i := row.(revokedAt := Some(now))];
      var ok := CreateRefreshToken(next, row.user, Some(row.family), row.family, now, lifetime);
      if !ok {
        rows := before;
        return Conflict;
      }
      return Issued(row.user);
    }

    /** The refresh endpoint: the exception for a refused token leaves the connection block, which rolls back. */
    method ServeRefresh(hash: Digest, next: Digest, now: Time, lifetime: Time) returns (reply: Reply)
      modifies this
      ensures (reply, rows) == Refreshed(old(rows), hash, next, now, lifetime, false)
    {
      var before := rows;
      reply := RotateRefreshToken(hash, next, now, lifetime);
      if !reply.Issued? {
        rows := before;
      }
    }

    /** True exactly when the token is known, whether or not any row was still live. */
    method RevokeRefreshFamily(hash: Digest, now: Time) returns (known: bool)
      modifies this
      ensures rows == LoggedOut(old(rows), hash, now)
      ensures known <==> exists i :: 0 <= i < |old(rows)| && old(rows)[i].hash == hash
    {
      var found := IndexOf(rows, hash);
      var revoked := 0;
      if found.Some? {
        var family := rows[found.value].family;
        ghost var before := rows;
        revoked := |set i | 0 <= i < |rows| && rows[i].family == family && rows[i].revokedAt.None?|;
        rows := FamilyRevoked(rows, family, now);
        assert rows[found.value].hash == before[found.value].hash;
      }
      known := revoked > 0 || IndexOf(rows, hash).Some?;
    }
  }

  // ---------------------------------------------------------------------------
  // Runs
  // ---------------------------------------------------------------------------

  datatype Call =
    | Login(hash: Digest, user: UserId, family: Family, now: Time, lifetime: Time)
    | Refresh(presented: Digest, next: Digest, now: Time, lifetime: Time, commits: bool)
    | Logout(presented: Digest, now: Time)

  /** The table, and for each row the row it was rotated from. */
  datatype History = History(rows: seq<Row>, parents: seq<Option<nat>>)

  const START := History([], [])

  ghost predicate FamilyIsNew(rows: seq<Row>, family: Family) {
    forall i :: 0 <= i < |rows| ==> rows[i].family != family
  }

  /** A login draws a new family id. */
  ghost predicate Enabled(h: History, c: Call) {
    c.Login? ==> FamilyIsNew(h.rows, c.family)
  }

  function Apply(h: History, c: Call): History {
    match c
    case Login(hash, user, family, now, lifetime) =>
      var (ok, rows) := Created(h.rows, hash, user, family, now + lifetime);
      History(rows, if ok then h.parents + [None] else h.parents)
    case Refresh(presented, next, now, lifetime, commits) =>
      var (reply, rows) := Refreshed(h.rows, presented, next, now, lifetime, commits);
      History(rows, if reply.Issued? then h.parents + [IndexOf(h.rows, presented)] else h.parents)
    case Logout(presented, now) => h.(rows := LoggedOut(h.rows, presented, now))
  }

  function ReplyTo(h: History, c: Call): Reply
    requires c.Refresh?
  {
    Rotated(h.rows, c.presented, c.next, c.now, c.lifetime).0
  }

  ghost predicate IsRun(h: History, calls: seq<Call>)
    decreases |calls|
  {
    calls == [] || (Enabled(h, calls[0]) && IsRun(Apply(h, calls[0]), calls[1..]))
  }

  function After(h: History, calls: seq<Call>): History
    decreases |calls|
  {
    if calls == [] then h else After(Apply(h, calls[0]), calls[1..])
  }

  // ---------------------------------------------------------------------------
  // What every run keeps
  // ---------------------------------------------------------------------------

  ghost predicate UniqueHashes(rows: seq<Row>) {
    forall i, j :: 0 <= i < j < |rows| ==> rows[i].hash != rows[j].hash
  }

  /** Only the newest row of a family can be live, and a family belongs to one user. */
  ghost predicate OneLive(rows: seq<Row>) {
    forall i, j :: 0 <= i < j < |rows| && rows[i].family == rows[j].family ==> (
      rows[i].revokedAt.Some? && rows[i].user == rows[j].user)
  }

  /** i is the last row of family before row j. */
  ghost predicate Precedes(rows: seq<Row>, i: nat, j: nat) {
    && i < j < |rows| && rows[i].family == rows[j].family
    && forall k :: i < k < j ==> rows[k].family != rows[j].family
  }

  /** A row came from a rotation of its family's previous row, or is the first of its family. */
  ghost predicate Follows(rows: seq<Row>, parent: Option<nat>, j: nat)
    requires j < |rows|
  {
    match parent
    case Some(i) => Precedes(rows, i, j)
    case None => FamilyIsNew(rows[..j], rows[j].family)
  }

  ghost predicate Linear(rows: seq<Row>, parents: seq<Option<nat>>) {
    && |parents| == |rows|
    && forall j :: 0 <= j < |rows| ==> Follows(rows, parents[j], j)
  }

  ghost predicate Inv(h: History) {
    UniqueHashes(h.rows) && OneLive(h.rows) && Linear(h.rows, h.parents)
  }

  /** The same rows, some of them revoked since. */
  ghost predicate MoreRevoked(rows: seq<Row>, later: seq<Row>) {
    && |rows| <= |later|
    && forall i :: 0 <= i < |rows| ==> later[i] == rows[i] || (exists t :: later[i] == Revoked(rows[i], t))
  }

  lemma RevokingKeepsShape(rows: seq<Row>, later: seq<Row>, parents: seq<Option<nat>>)
    requires |later| == |rows| && UniqueHashes(rows) && OneLive(rows) && Linear(rows, parents)
    requires MoreRevoked(rows, later)
    ensures UniqueHashes(later) && OneLive(later) && Linear(later, parents)
  {
    forall i | 0 <= i < |rows|
      ensures later[i].hash == rows[i].hash && later[i].family == rows[i].family && later[i].user == rows[i].user
      ensures rows[i].revokedAt.Some? ==> later[i].revokedAt.Some?
    {
    }
    forall j | 0 <= j < |rows| ensures Follows(later, parents[j], j) {
      assert Follows(rows, parents[j], j);
      forall k | 0 <= k < j ensures later[..j][k].family == rows[..j][k].family {
      }
    }
  }

  /** Appending a live row to a family whose rows are all revoked, after the last of them. */
  lemma AppendingKeepsShape(rows: seq<Row>, parents: seq<Option<nat>>, row: Row, parent: Option<nat>)
    requires UniqueHashes(rows) && OneLive(rows) && Linear(rows, parents)
    requires IndexOf(rows, row.hash).None?
    requires forall i :: 0 <= i < |rows| && rows[i].family == row.family ==> (rows[i].revokedAt.Some? && rows[i].user == row.user)
    requires match parent
             case None => FamilyIsNew(rows, row.family)
             case Some(i) => i < |rows| && rows[i].family == row.family
                             && forall k :: i < k < |rows| ==> rows[k].family != row.family
    ensures UniqueHashes(rows + [row]) && OneLive(rows + [row]) && Linear(rows + [row], parents + [parent])
  {
    var later, all := rows + [row], parents + [parent];
    forall j | 0 <= j < |later| ensures Follows(later, all[j], j) {
      if j < |rows| {
        FollowsStill(rows, row, parents[j], j);
      } else {
        assert later[..j] == rows;
      }
    }
  }

  lemma FollowsStill(rows: seq<Row>, row: Row, parent: Option<nat>, j: nat)
    requires j < |rows| && Follows(rows, parent, j)
    ensures Follows(rows + [row], parent, j)
  {
    assert (rows + [row])[..j] == rows[..j];
  }

  lemma FamilyRevokedIsMore(rows: seq<Row>, family: Family, now: Time)
    ensures MoreRevoked(rows, FamilyRevoked(rows, family, now))
  {
    var later := FamilyRevoked(rows, family, now);
    forall i | 0 <= i < |rows| ensures later[i] == rows[i] || (exists t :: later[i] == Revoked(rows[i], t)) {
      assert later[i] == rows[i] || later[i] == Revoked(rows[i], now);
    }
  }

  lemma RevokeStep(h: History, family: Family, now: Time)
    requires Inv(h)
    ensures Inv(h.(rows := FamilyRevoked(h.rows, family, now)))
  {
    FamilyRevokedIsMore(h.rows, family, now);
    RevokingKeepsShape(h.rows, FamilyRevoked(h.rows, family, now), h.parents);
  }

  /** Rotating a live row: it is its family's last, is revoked, and the new row follows it. */
  lemma RotateStep(h: History, i: nat, now: Time, row: Row)
    requires Inv(h) && i < |h.rows| && h.rows[i].revokedAt.None? && row.revokedAt.None?
    requires row.family == h.rows[i].family && row.user == h.rows[i].user
    requires IndexOf(h.rows[i := Revoked(h.rows[i], now)], row.hash).None?
    ensures Inv(History(h.rows[i := Revoked(h.rows[i], now)] + [row], h.parents + [Some(i)]))
  {
    var mid := h.rows[i := Revoked(h.rows[i], now)];
    assert MoreRevoked(h.rows, mid) by {
      assert mid[i] == Revoked(h.rows[i], now);
    }
    RevokingKeepsShape(h.rows, mid, h.parents);
    assert forall k :: 0 <= k < |mid| ==> mid[k].family == h.rows[k].family && mid[k].user == h.rows[k].user;
    AppendingKeepsShape(mid, h.parents, row, Some(i));
  }

  lemma LoginStep(h: History, row: Row)
    requires Inv(h) && FamilyIsNew(h.rows, row.family) && IndexOf(h.rows, row.hash).None?
    ensures Inv(History(h.rows + [row], h.parents + [None]))
  {
    AppendingKeepsShape(h.rows, h.parents, row, None);
  }

  /** Every call keeps the invariant. */
  lemma StepKeepsInv(h: History, c: Call)
    requires Inv(h) && Enabled(h, c)
    ensures Inv(Apply(h, c))
  {
    hide Inv;
    match c
    case Login(hash, user, family, now, lifetime) =>
      if IndexOf(h.rows, hash).None? {
        LoginStep(h, Row(hash, user, family, now + lifetime, None));
      }
    case Refresh(presented, next, now, lifetime, commits) =>
      var found := IndexOf(h.rows, presented);
      if found.Some? {
        var i := found.value;
        if h.rows[i].revokedAt.Some? {
          RevokeStep(h, h.rows[i].family, now);
        } else if now < h.rows[i].expires && IndexOf(h.rows[i := Revoked(h.rows[i], now)], next).None? {
          RotateStep(h, i, now, Row(next, h.rows[i].user, h.rows[i].family, now + lifetime, None));
        }
      }
    case Logout(presented, now) =>
      var found := IndexOf(h.rows, presented);
      if found.Some? {
        RevokeStep(h, h.rows[found.value].family, now);
      }
  }

  /** Over any run: each family is one chain of rotations by one user, with at most its last token live. */
  lemma {:induction false} RunKeepsInv(h: History, calls: seq<Call>)
    requires Inv(h) && IsRun(h, calls)
    ensures Inv(After(h, calls))
    decreases |calls|
  {
    if calls != [] {
      StepKeepsInv(h, calls[0]);
      RunKeepsInv(Apply(h, calls[0]), calls[1..]);
    }
  }

  lemma ReachableInv(calls: seq<Call>)
    requires IsRun(START, calls)
    ensures Inv(After(START, calls))
  {
    RunKeepsInv(START, calls);
  }

  // ---------------------------------------------------------------------------
  // What it means for a stolen token
  // ---------------------------------------------------------------------------

  /** Rows stay, and revoked ones stay as they are. */
  ghost predicate Grown(h: History, later: History) {
    && |h.rows| <= |later.rows|
    && (forall i :: 0 <= i < |h.rows| ==>
          && later.rows[i].(revokedAt := None) == h.rows[i].(revokedAt := None)
          && (h.rows[i].revokedAt.Some? ==> later.rows[i] == h.rows[i]))
  }

  lemma StepGrows(h: History, c: Call)
    ensures Grown(h, Apply(h, c))
  {
  }

  lemma {:induction false} RunGrows(h: History, calls: seq<Call>)
    ensures Grown(h, After(h, calls))
    decreases |calls|
  {
    if calls != [] {
      var mid, later := Apply(h, calls[0]), After(h, calls);
      StepGrows(h, calls[0]);
      RunGrows(mid, calls[1..]);
      forall i | 0 <= i < |h.rows|
        ensures later.rows[i].(revokedAt := None) == h.rows[i].(revokedAt := None)
        ensures h.rows[i].revokedAt.Some? ==> later.rows[i] == h.rows[i]
      {
        assert later.rows[i].(revokedAt := None) == mid.rows[i].(revokedAt := None);
      }
    }
  }

  ghost predicate AllRevoked(rows: seq<Row>, family: Family) {
    forall i :: 0 <= i < |rows| && rows[i].family == family ==> rows[i].revokedAt.Some?
  }

  /** A row is added only to a new family, or after a live row of its own. */
  lemma AddedRowIsNotOf(h: History, c: Call, f: Family)
    requires Enabled(h, c) && !FamilyIsNew(h.rows, f) && AllRevoked(h.rows, f)
    ensures |Apply(h, c).rows| > |h.rows| ==> Apply(h, c).rows[|h.rows|].family != f && |Apply(h, c).rows| == |h.rows| + 1
  {
    if c.Refresh? && IndexOf(h.rows, c.presented).Some? {
      var i := IndexOf(h.rows, c.presented).value;
      assert h.rows[i].revokedAt.None? ==> h.rows[i].family != f;
    }
  }

  lemma DeadStepStays(h: History, c: Call, f: Family)
    requires Enabled(h, c) && !FamilyIsNew(h.rows, f) && AllRevoked(h.rows, f)
    ensures AllRevoked(Apply(h, c).rows, f)
  {
    StepGrows(h, c);
    var u := Apply(h, c);
    forall i | 0 <= i < |u.rows| && u.rows[i].family == f ensures u.rows[i].revokedAt.Some? {
      if i < |h.rows| {
        assert u.rows[i].(revokedAt := None) == h.rows[i].(revokedAt := None);
        assert h.rows[i].family == f;
      } else {
        AddedRowIsNotOf(h, c, f);
      }
    }
  }

  /** A family without a live token never gets one again. */
  lemma {:induction false} DeadStays(h: History, calls: seq<Call>, f: Family)
    requires IsRun(h, calls) && !FamilyIsNew(h.rows, f) && AllRevoked(h.rows, f)
    ensures AllRevoked(After(h, calls).rows, f)
    decreases |calls|
  {
    if calls != [] {
      var mid := Apply(h, calls[0]);
      StepGrows(h, calls[0]);
      var k :| 0 <= k < |h.rows| && h.rows[k].family == f;
      assert mid.rows[k].(revokedAt := None) == h.rows[k].(revokedAt := None);
      DeadStepStays(h, calls[0], f);
      DeadStays(mid, calls[1..], f);
    }
  }

  /** No token of the family is live, and none will be after any calls. */
  ghost predicate EndedForGood(h: History, f: Family) {
    forall calls :: IsRun(h, calls) ==> AllRevoked(After(h, calls).rows, f)
  }

  lemma EndsNowIff(h: History, c: Call, i: nat)
    requires !c.Login? && IndexOf(h.rows, c.presented) == Some(i)
    ensures AllRevoked(Apply(h, c).rows, h.rows[i].family)
            <==> AllRevoked(h.rows, h.rows[i].family) || c.Logout? || (c.commits && h.rows[i].revokedAt.Some?)
  {
    var u := Apply(h, c);
    if c.Refresh? && ReplyTo(h, c).Issued? {
      assert u.rows[|h.rows|].revokedAt.None? && u.rows[|h.rows|].family == h.rows[i].family;
    }
  }

  /**
   * A presented token of a family puts an end to the whole family, for good, exactly when it is presented for
   * logout, or is a replay whose caller commits, or the family had ended before.
   */
  lemma FamilyEndsIff(h: History, c: Call, i: nat)
    requires !c.Login? && IndexOf(h.rows, c.presented) == Some(i)
    ensures EndedForGood(Apply(h, c), h.rows[i].family)
            <==> AllRevoked(h.rows, h.rows[i].family) || c.Logout? || (c.commits && h.rows[i].revokedAt.Some?)
  {
    var u, f := Apply(h, c), h.rows[i].family;
    EndsNowIff(h, c, i);
    StepGrows(h, c);
    assert u.rows[i].(revokedAt := None) == h.rows[i].(revokedAt := None);
    if AllRevoked(u.rows, f) {
      forall calls | IsRun(u, calls) ensures AllRevoked(After(u, calls).rows, f) {
        DeadStays(u, calls, f);
      }
    } else {
      var none: seq<Call> := [];
      assert IsRun(u, none) && After(u, none) == u && !AllRevoked(After(u, none).rows, f);
    }
  }

  /** Over any run: once a committed replay or a logout hits a family, no token of it, old or new, is ever live again. */
  lemma HitFamilyStaysDead(before: seq<Call>, c: Call, calls: seq<Call>, i: nat)
    requires IsRun(START, before) && Enabled(After(START, before), c) && IsRun(Apply(After(START, before), c), calls)
    requires var h := After(START, before);
             && !c.Login? && IndexOf(h.rows, c.presented) == Some(i)
             && (c.Refresh? ==> c.commits && h.rows[i].revokedAt.Some?)
    ensures var h := After(START, before);
            AllRevoked(After(Apply(h, c), calls).rows, h.rows[i].family)
  {
    FamilyEndsIff(After(START, before), c, i);
  }

  /** A refused refresh whose caller rolls back changes nothing, so every later reply is as if it had not been made. */
  lemma RolledBackIsInvisible(h: History, c: Call, calls: seq<Call>)
    requires c.Refresh? && !c.commits && !ReplyTo(h, c).Issued?
    ensures After(h, [c] + calls) == After(h, calls)
  {
    assert ([c] + calls)[0] == c && ([c] + calls)[1..] == calls;
  }

  lemma Single(h: History, c: Call, row: Row)
    requires h == START && c.Login? && c.hash == row.hash && c.user == row.user && c.family == row.family
    requires row.expires == c.now + c.lifetime && row.revokedAt == None
    ensures Apply(h, c) == History([row], [None])
  {
  }

  lemma FoundAmongTwo(x: Row, y: Row)
    requires x.hash != y.hash
    ensures IndexOf([x, y], x.hash) == Some(0) && IndexOf([x, y], y.hash) == Some(1)
    ensures forall d :: d != x.hash && d != y.hash ==> IndexOf([x, y], d) == None
  {
    assert [x, y][..1] == [x] && [x][..0] == [];
  }

  lemma NoCalls(h: History)
    ensures After(h, []) == h && IsRun(h, [])
  {
  }

  lemma NextCall(h: History, c: Call, calls: seq<Call>)
    ensures After(h, [c] + calls) == After(Apply(h, c), calls)
    ensures IsRun(h, [c] + calls) <==> Enabled(h, c) && IsRun(Apply(h, c), calls)
  {
    assert ([c] + calls)[0] == c && ([c] + calls)[1..] == calls;
    hide Apply, Enabled;
  }

  /** Login and refresh: the first token is used up, the second one live. */
  lemma FirstTwo(a: Digest, b: Digest, user: UserId, family: Family, now: Time, lifetime: Time)
    requires a != b && lifetime > 0
    ensures var c0, c1 := Login(a, user, family, now, lifetime), Refresh(a, b, now, lifetime, false);
            var first, used := Row(a, user, family, now + lifetime, None), Row(a, user, family, now + lifetime, Some(now));
            var one := History([first], [None]);
            && Enabled(START, c0) && Enabled(one, c1) && Apply(START, c0) == one
            && Apply(one, c1) == History([used, Row(b, user, family, now + lifetime, None)], [None, Some(0)])
  {
    var first, used := Row(a, user, family, now + lifetime, None), Row(a, user, family, now + lifetime, Some(now));
    Single(START, Login(a, user, family, now, lifetime), first);
    assert [first][0 := used] == [used];
    assert IndexOf([first], a) == Some(0) && IndexOf([used], b) == None;
  }

  /** The used token is a replay, refused and rolled back, and the live one is accepted. */
  lemma ThirdIsRefused(used: Row, live: Row, replay: Call, refresh: Call, now: Time)
    requires used.hash != live.hash && used.family == live.family && used.revokedAt.Some? && live.revokedAt.None?
    requires replay.Refresh? && replay.presented == used.hash && !replay.commits
    requires refresh.Refresh? && refresh.presented == live.hash && refresh.now == now < live.expires
    requires refresh.next != used.hash && refresh.next != live.hash
    ensures var h := History([used, live], [None, Some(0)]);
            && Enabled(h, replay) && ReplyTo(h, replay) == Replayed && Apply(h, replay) == h
            && ReplyTo(h, refresh) == Issued(live.user)
  {
    FoundAmongTwo(used, live);
    var revoked := live.(revokedAt := Some(now));
    assert [used, live][1 := Revoked(live, now)] == [used, revoked];
    FoundAmongTwo(used, revoked);
  }

  /**
   * So the endpoint does not lock a thief out: after login and refresh, the replay of the first token is refused
   * but rolled back, and the second token is still accepted.
   */
  lemma ServedReplayLeavesFamilyLive(
    a: Digest, b: Digest, next: Digest, user: UserId, family: Family, now: Time, lifetime: Time)
    requires a != b && next != a && next != b && lifetime > 0
    ensures var calls := [Login(a, user, family, now, lifetime), Refresh(a, b, now, lifetime, false),
                          Refresh(a, next, now, lifetime, false)];
            && IsRun(START, calls)
            && ReplyTo(After(START, calls[..2]), calls[2]) == Replayed
            && ReplyTo(After(START, calls), Refresh(b, next, now, lifetime, false)) == Issued(user)
  {
    var c0, c1 := Login(a, user, family, now, lifetime), Refresh(a, b, now, lifetime, false);
    var c2 := Refresh(a, next, now, lifetime, false);
    var calls := [c0, c1, c2];
    var first, used := Row(a, user, family, now + lifetime, None), Row(a, user, family, now + lifetime, Some(now));
    var one, two := History([first], [None]), History([used, Row(b, user, family, now + lifetime, None)], [None, Some(0)]);
    FirstTwo(a, b, user, family, now, lifetime);
    ThirdIsRefused(used, two.rows[1], c2, Refresh(b, next, now, lifetime, false), now);
    assert calls[..2] == [c0] + [c1] && calls == [c0] + ([c1] + [c2]) && [c2] + [] == [c2] && [c1] + [] == [c1];
    hide Apply, ReplyTo, Enabled, After, IsRun;
    NoCalls(two);
    NextCall(two, c2, []);
    NextCall(one, c1, []);
    NextCall(one, c1, [c2]);
    NextCall(START, c0, [c1]);
    NextCall(START, c0, [c1] + [c2]);
    RolledBackIsInvisible(two, c2, []);
  }

  /** A token is accepted at most once: presented again after any calls it is a replay, whatever the times. */
  lemma AcceptedOnce(h: History, c: Call, calls: seq<Call>, next: Digest, now: Time, lifetime: Time)
    requires Inv(h) && c.Refresh? && Rotated(h.rows, c.presented, c.next, c.now, c.lifetime).0.Issued?
    requires IsRun(Apply(h, c), calls)
    ensures Rotated(After(Apply(h, c), calls).rows, c.presented, next, now, lifetime).0.Replayed?
  {
    var i := IndexOf(h.rows, c.presented).value;
    var mid := Apply(h, c);
    assert mid.rows[i] == Revoked(h.rows[i], c.now);
    RunGrows(mid, calls);
    var later := After(mid, calls);
    StepKeepsInv(h, c);
    RunKeepsInv(mid, calls);
    var k := IndexOf(later.rows, c.presented);
    assert later.rows[i].hash == c.presented;
    assert k == Some(i);
  }

  /**
   * Theft, for a caller that commits: whoever presents a used token second locks everyone out, and no token of the
   * family is accepted again.
   */
  lemma ReplayLocksOut(h: History, first: Call, between: seq<Call>, second: Call, calls: seq<Call>, c: Call)
    requires Inv(h) && first.Refresh? && ReplyTo(h, first).Issued?
    requires second.Refresh? && second.commits && second.presented == first.presented && c.Refresh?
    requires IsRun(Apply(h, first), between)
    requires IsRun(Apply(After(Apply(h, first), between), second), calls)
    ensures var later := After(Apply(After(Apply(h, first), between), second), calls);
            var k, i := IndexOf(later.rows, c.presented), IndexOf(h.rows, first.presented);
            k.Some? && later.rows[k.value].family == h.rows[i.value].family ==> ReplyTo(later, c).Replayed?
  {
    var i := IndexOf(h.rows, first.presented).value;
    var used := After(Apply(h, first), between);
    AcceptedOnce(h, first, between, second.next, second.now, second.lifetime);
    RunGrows(Apply(h, first), between);
    StepGrows(h, first);
    StepKeepsInv(h, first);
    RunKeepsInv(Apply(h, first), between);
    var k := IndexOf(used.rows, first.presented).value;
    assert used.rows[i].hash == first.presented && used.rows[i].family == h.rows[i].family;
    assert k == i;
    FamilyEndsIff(used, second, k);
  }
}
