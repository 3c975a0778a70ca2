/**
  Token records (apiV2/src/auth/token-records.service.ts) and the bearer flows over them
  (apiV2/src/auth/auth.service.ts). A signed token that verifies is one this service signed, so it is
  represented by the row it names and the kind it was signed as.
*/
module Tokens {
  import opened Wrappers
  import opened Bytes

  datatype Row = Row(user: Text, expiresAt: int, revokedAt: Option<int>)

  datatype Kind = Refresh | Session | SessionRefresh

  datatype Error = Unauthorized

  predicate Live(row: Row, now: int) { row.revokedAt.None? && row.expiresAt >= now }

  function Revoked(row: Row, now: int): Row { row.(revokedAt := Some(now)) }

  function RevokedAll(rows: seq<Row>, user: Text, now: int): (r: seq<Row>)
    ensures |r| == |rows|
    ensures forall i :: 0 <= i < |rows| ==>
              r[i] == if rows[i].user == user && rows[i].revokedAt.None? then Revoked(rows[i], now) else rows[i]
  {
    if rows == [] then []
    else
      var n := |rows| - 1;
      RevokedAll(rows[..n], user, now)
      + [if rows[n].user == user && rows[n].revokedAt.None? then Revoked(rows[n], now) else rows[n]]
  }

  /** The conditional UPDATE that only one of several claimants of a row can win. */
  function Claim(rows: seq<Row>, jti: nat, now: int): Option<seq<Row>> {
    if jti < |rows| && rows[jti].revokedAt.None? && rows[jti].expiresAt > now
    then Some(rows[jti := Revoked(rows[jti], now)]) else None
  }

  class TokenRecordsService {
    var rows: seq<Row>

    constructor ()
      ensures rows == []
    {
      rows := [];
    }

    method Issue(user: Text, ttl: nat, now: int) returns (jti: nat)
      modifies this
      ensures jti == |old(rows)| && rows == old(rows) + [Row(user, now + ttl, None)]
    {
      jti := |rows|;
      rows := rows + [Row(user, now + ttl, None)];
    }

    method AssertLive(jti: nat, now: int) returns (result: Result<Row, Error>)
      ensures result.Ok? <==> jti < |rows| && rows[jti].revokedAt.None? && now <= rows[jti].expiresAt
      ensures result.Ok? ==> result.value == rows[jti]
    {
      if jti >= |rows| || rows[jti].revokedAt.Some? || rows[jti].expiresAt < now { return Err(Unauthorized); }
      result := Ok(rows[jti]);
    }

    method ClaimForRotation(jti: nat, now: int) returns (result: Result<Row, Error>)
      modifies this
      ensures match Claim(old(rows), jti, now)
              case Some(claimed) => rows == claimed && result == Ok(rows[jti])
              case None => rows == old(rows) && result == Err(Unauthorized)
      ensures result.Ok? <==> jti < |old(rows)| && old(rows)[jti].revokedAt.None? && now < old(rows)[jti].expiresAt
      ensures rows == if result.Ok? then old(rows)[jti := old(rows)[jti].(revokedAt := Some(now))] else old(rows)
    {
      if jti < |rows| && rows[jti].revokedAt.None? && rows[jti].expiresAt > now {
        rows := rows[jti := Revoked(rows[jti], now)];
        result := Ok(rows[jti]);
      } else {
        result := Err(Unauthorized);
      }
    }

    method Revoke(jti: nat, now: int)
      modifies this
      ensures rows == if jti < |old(rows)| then old(rows)[jti := old(rows)[jti].(revokedAt := Some(now))] else old(rows)
    {
      if jti < |rows| { rows := rows[jti := Revoked(rows[jti], now)]; }
    }

    method RevokeAllForUser(user: Text, now: int)
      modifies this
      ensures rows == RevokedAll(old(rows), user, now)
      ensures |rows| == |old(rows)|
      ensures forall i :: 0 <= i < |rows| ==>
                rows[i] == if old(rows)[i].user == user && old(rows)[i].revokedAt.None?
                           then old(rows)[i].(revokedAt := Some(now)) else old(rows)[i]
      ensures forall i :: 0 <= i < |rows| && rows[i].user == user ==> rows[i].revokedAt.Some?
    {
      rows := RevokedAll(rows, user, now);
    }
  }

  /** Known, and not deactivated; the value is whether the account has been deactivated. */
  predicate Active(users: map<Text, bool>, user: Text) { user in users && !users[user] }

  /** `refresh` with nothing beside it: the rows after, and the successor. */
  function RefreshAlone(users: map<Text, bool>, rows: seq<Row>, jti: nat, ttl: nat, now: int)
    : (seq<Row>, Result<nat, Error>)
  {
    match Claim(rows, jti, now)
    case None => (rows, Err(Unauthorized))
    case Some(claimed) =>
      if Active(users, rows[jti].user) then (claimed + [Row(rows[jti].user, now + ttl, None)], Ok(|rows|))
      else (claimed, Err(Unauthorized))
  }

  /** A token can be rotated once: whatever a first attempt did, another with the same token fails. */
  lemma RotatesOnce(users: map<Text, bool>, rows: seq<Row>, jti: nat, ttl: nat, now: int, later: int)
    requires jti < |rows| && later >= now
    ensures var (after, first) := RefreshAlone(users, rows, jti, ttl, now);
            RefreshAlone(users, after, jti, ttl, later) == (after, Err(Unauthorized))
  {
  }

  class AuthService {
    const records: TokenRecordsService
    const refreshTtl: nat
    var users: map<Text, bool>

    constructor (records: TokenRecordsService, refreshTtl: nat, users: map<Text, bool>)
      ensures this.records == records && this.refreshTtl == refreshTtl && this.users == users
    {
      this.records := records;
      this.refreshTtl := refreshTtl;
      this.users := users;
    }

    method Login(user: Text, validCredentials: bool, now: int) returns (result: Result<nat, Error>)
      modifies records
      ensures if validCredentials && user in users && !users[user]
              then result == Ok(|old(records.rows)|) && records.rows == old(records.rows) + [Row(user, now + refreshTtl, None)]
              else result == Err(Unauthorized) && records.rows == old(records.rows)
    {
      if !validCredentials || user !in users { return Err(Unauthorized); }
      if users[user] { return Err(Unauthorized); }
      var jti := records.Issue(user, refreshTtl, now);
      result := Ok(jti);
    }

    /** `jti` and `user` are what the verified refresh token says. */
    method Refresh(jti: nat, user: Text, now: int) returns (result: Result<nat, Error>)
      requires jti < |records.rows| ==> records.rows[jti].user == user
      modifies records
      ensures (records.rows, result) == RefreshAlone(users, old(records.rows), jti, refreshTtl, now)
      ensures result.Ok? <==> && jti < |old(records.rows)| && old(records.rows)[jti].revokedAt.None?
                              && now < old(records.rows)[jti].expiresAt && user in users && !users[user]
      ensures result.Ok? ==> result.value == |old(records.rows)|
      ensures |records.rows| == |old(records.rows)| + (if result.Ok? then 1 else 0)
      ensures result.Ok? ==> records.rows[|old(records.rows)|] == Row(user, now + refreshTtl, None)
      ensures forall i :: 0 <= i < |old(records.rows)| ==>
                var row := old(records.rows)[i];
                records.rows[i] == if i == jti && row.revokedAt.None? && now < row.expiresAt
                                   then row.(revokedAt := Some(now)) else row
    {
      var claimed := records.ClaimForRotation(jti, now);
      if claimed.Err? { return Err(claimed.error); }
      if user !in users || users[user] { return Err(Unauthorized); }
      var successor := records.Issue(user, refreshTtl, now);
      result := Ok(successor);
    }

    method Logout(jti: nat, now: int)
      modifies records
      ensures |records.rows| == |old(records.rows)|
      ensures forall i :: 0 <= i < |records.rows| && i != jti ==> records.rows[i] == old(records.rows)[i]
      ensures jti < |records.rows| ==> records.rows[jti] == old(records.rows)[jti].(revokedAt := Some(now))
    {
      records.Revoke(jti, now);
    }

    /** The synchronous part of an account deletion: deactivate, then revoke every record. */
    method StartDeletion(user: Text, now: int) returns (result: Result<(), Error>)
      modifies this`users, records
      ensures if user in old(users) && !old(users)[user]
              then result == Ok(()) && users == old(users)[user := true] && |records.rows| == |old(records.rows)|
                   && forall i :: 0 <= i < |records.rows| ==>
                        records.rows[i] == if old(records.rows)[i].user == user && old(records.rows)[i].revokedAt.None?
                                           then old(records.rows)[i].(revokedAt := Some(now)) else old(records.rows)[i]
              else result == Err(Unauthorized) && users == old(users) && records.rows == old(records.rows)
    {
      if user !in users || users[user] { return Err(Unauthorized); }
      users := users[user := true];
      records.RevokeAllForUser(user, now);
      result := Ok(());
    }
  }
}
