/** The refresh-token table and the users' versions, changed in place. */
module TokenStore {
  import opened Basics
  import T = Tokens

  class TokenStore {
    var now: int
    var rows: seq<T.Token>
    var versions: map<nat, nat>
    ghost var issued: set<(nat, nat)>

    ghost function View(): T.Auth
      reads this
    {
      T.Auth(now, rows, versions, map[], issued)
    }

    constructor ()
      ensures T.Init(View())
    {
      now, rows, versions, issued := 0, [], map[], {};
    }

    method CurrentVersion(user: nat) returns (ver: nat)
      ensures ver == T.Version(View(), user)
    {
      ver := if user in versions then versions[user] else 0;
    }

    method RevokeAll(user: nat)
      modifies this`rows
      ensures View() == T.Next(old(View()), T.RevokeAll(user))
    {
      for i := 0 to |rows|
        invariant |rows| == |old(rows)|
        invariant forall j :: 0 <= j < |rows| ==>
          rows[j] == if j < i then T.Revoked(old(rows), user)[j] else old(rows)[j]
      {
        if rows[i].user == user && !rows[i].revoked {
          rows := rows[i := rows[i].(revoked := true)];
        }
      }
      assert rows == T.Revoked(old(rows), user);
    }

    method HandleReuse(user: nat)
      modifies this`rows, this`versions
      ensures View() == T.Swept(old(View()), user)
    {
      RevokeAll(user);
      var ver := CurrentVersion(user);
      versions := versions[user := ver + 1];
    }

    /** Signs an access token and creates the refresh row that goes with it. */
    method GenerateTokens(user: nat, source: Option<nat>) returns (ver: nat, row: nat)
      requires source.Some? ==> source.value < |rows|
      modifies this`rows, this`issued
      ensures ver == T.Version(View(), user) && issued == old(issued) + {(user, ver)}
      ensures row == |old(rows)|
      ensures rows == old(rows) + [T.Token(user, now + T.REFRESH_TTL, false, false, None,
                                           if source.Some? then old(rows)[source.value].chain else row, source)]
    {
      ver := CurrentVersion(user);
      issued := issued + {(user, ver)};
      row := |rows|;
      var chain := if source.Some? then rows[source.value].chain else row;
      rows := rows + [T.Token(user, now + T.REFRESH_TTL, false, false, None, chain, source)];
    }

    method SignIn(user: nat) returns (ver: nat, row: nat)
      modifies this`rows, this`issued
      ensures View() == T.Next(T.Next(old(View()), T.SignIn(0, user)), T.Advance(0))
      ensures row < |rows| && rows[row].user == user && T.Live(rows[row]) && T.Accepts(View(), user, ver)
    {
      ver, row := GenerateTokens(user, None);
      assert View().calls == map[];
    }

    /** Redeems a refresh token: the new row and the access token's version, or None for any refusal. */
    method RefreshToken(r: nat) returns (result: Option<(nat, nat)>)
      modifies this`rows, this`versions, this`issued
      ensures View() == T.Alone(old(View()), r)
      ensures result.Some? <==> r < |old(rows)| && T.Live(old(rows)[r]) && old(rows)[r].expires >= now
      ensures result.Some? ==>
        var (ver, row) := result.value;
        row < |rows| && rows[r].replacedBy == Some(row) && T.Live(rows[row]) && T.Accepts(View(), rows[row].user, ver)
    {
      if r >= |rows| {
        return None;
      }
      var record := rows[r];
      if record.used || record.revoked {
        HandleReuse(record.user);
        return None;
      }
      if record.expires < now {
        return None;
      }
      rows := rows[r := rows[r].(used := true)];
      var ver, row := GenerateTokens(record.user, Some(r));
      rows := rows[r := rows[r].(replacedBy := Some(row))];
      return Some((ver, row));
    }

    method RevokeRefreshToken(r: nat)
      modifies this`rows
      ensures View() == T.Next(old(View()), T.SignOut(r))
    {
      if r < |rows| && !rows[r].revoked {
        rows := rows[r := rows[r].(revoked := true)];
      }
    }
  }
}
