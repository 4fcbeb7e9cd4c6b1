/**
 * The user directory of V2board mode (v2board/auth.go): two tables built
 * together from the panel's user list, one keyed by the SHA-256 of the
 * user's UUID and one keyed by the user id, replaced as a pair on every
 * successful refresh. Each call is one atomic step (the lock is not
 * modelled).
 */
module Auth {
  import opened Panel

  /** One row of the directory (userEntry). */
  datatype UserEntry = UserEntry(user: User, passwordHash: Digest)

  /** The fingerprint table built from a user list; later users win on a shared key. */
  function IndexByHash(users: seq<User>, sha256: Hasher): map<Digest, UserEntry>
  {
    if users == [] then map[]
    else
      var u := users[|users| - 1];
      IndexByHash(users[..|users| - 1], sha256)[sha256(u.uuid) := UserEntry(u, sha256(u.uuid))]
  }

  /** The id table built from a user list; later users win on a shared id. */
  function IndexById(users: seq<User>, sha256: Hasher): map<int, UserEntry>
  {
    if users == [] then map[]
    else
      var u := users[|users| - 1];
      IndexById(users[..|users| - 1], sha256)[u.id := UserEntry(u, sha256(u.uuid))]
  }

  /** Every row is filed under its own fingerprint and its own id, and carries the hash of its UUID. */
  ghost predicate Consistent(byHash: map<Digest, UserEntry>, byId: map<int, UserEntry>, sha256: Hasher)
  {
    && (forall h :: h in byHash ==> byHash[h].passwordHash == h && sha256(byHash[h].user.uuid) == h)
    && (forall id :: id in byId ==> byId[id].user.id == id && byId[id].passwordHash == sha256(byId[id].user.uuid))
  }

  class AuthManager {
    /** SHA-256 over the bytes of a UUID; fixed for the life of the manager. */
    const sha256: Hasher
    var usersByHash: map<Digest, UserEntry>
    var usersById: map<int, UserEntry>

    ghost predicate Valid()
      reads this
    {
      Consistent(usersByHash, usersById, sha256)
    }

    /** NewAuthManager: both tables start empty, so nobody authenticates yet. */
    constructor (sha256: Hasher)
      ensures Valid()
      ensures this.sha256 == sha256
      ensures usersByHash == map[] && usersById == map[]
      ensures forall h :: !CheckAuth(h).1
      ensures forall id :: GetUserById(id).None?
    {
      this.sha256 := sha256;
      usersByHash := map[];
      usersById := map[];
    }

    /**
     * refresh: on a fetch error, reports it and keeps both tables; on a
     * user list, builds two fresh tables from it and installs them together.
     */
    method Refresh(fetched: Result<seq<User>>) returns (err: Option<string>)
      requires Valid()
      modifies this
      ensures Valid()
      ensures fetched.Err? ==> err == Some("fetch user list: " + fetched.error)
      ensures fetched.Err? ==> usersByHash == old(usersByHash) && usersById == old(usersById)
      ensures fetched.Ok? ==> err == None
      ensures fetched.Ok? ==> usersByHash == IndexByHash(fetched.value, sha256)
      ensures fetched.Ok? ==> usersById == IndexById(fetched.value, sha256)
    {
      if fetched.Err? {
        return Some("fetch user list: " + fetched.error);
      }
      var users := fetched.value;
      var newByHash: map<Digest, UserEntry> := map[];
      var newById: map<int, UserEntry> := map[];
      var i := 0;
      while i < |users|
        invariant 0 <= i <= |users|
        invariant newByHash == IndexByHash(users[..i], sha256)
        invariant newById == IndexById(users[..i], sha256)
      {
        var u := users[i];
        var hash := sha256(u.uuid);
        var entry := UserEntry(u, hash);
        newByHash := newByHash[hash := entry];
        newById := newById[u.id := entry];
        assert users[..i + 1][..i] == users[..i];
        i := i + 1;
      }
      assert users[..|users|] == users;
      IndexConsistent(users, sha256);
      usersByHash := newByHash;
      usersById := newById;
      err := None;
    }

    /**
     * CheckAuth: a fingerprint of any length other than 32 is refused
     * outright; a 32-byte one succeeds exactly when the table has it, with
     * that user's id; a refusal always reports id 0.
     */
    function CheckAuth(passwordHash: seq<byte>): (r: (int, bool))
      reads this
      ensures |passwordHash| != DigestSize ==> r == (0, false)
      ensures r.1 <==> |passwordHash| == DigestSize && passwordHash in usersByHash
      ensures r.1 ==> r.0 == usersByHash[passwordHash].user.id
      ensures !r.1 ==> r.0 == 0
    {
      if |passwordHash| != DigestSize then (0, false)
      else if passwordHash !in usersByHash then (0, false)
      else (usersByHash[passwordHash].user.id, true)
    }

    /** GetUserByID: a copy of the user filed under `id`, if any. */
    function GetUserById(id: int): (r: Option<User>)
      reads this
      ensures r.Some? <==> id in usersById
      ensures r.Some? ==> r.value == usersById[id].user
    {
      if id in usersById then Some(usersById[id].user) else None
    }

    /** UserCount: the number of fingerprints; zero exactly when no fingerprint authenticates. */
    function UserCount(): (n: nat)
      reads this
      ensures n == |usersByHash|
      ensures n == 0 <==> forall h :: !CheckAuth(h).1
    {
      if usersByHash == map[] then 0
      else
        var h :| h in usersByHash;
        assert CheckAuth(h).1;
        |usersByHash|
    }
  }

  /** Tables built from a list are consistent. */
  lemma {:induction false} IndexConsistent(users: seq<User>, sha256: Hasher)
    ensures Consistent(IndexByHash(users, sha256), IndexById(users, sha256), sha256)
  {
    if users != [] {
      IndexConsistent(users[..|users| - 1], sha256);
    }
  }

  /** The fingerprint table holds exactly the hashes of the listed UUIDs. */
  lemma {:induction false} IndexByHashKeys(users: seq<User>, sha256: Hasher)
    ensures IndexByHash(users, sha256).Keys == set i | 0 <= i < |users| :: sha256(users[i].uuid)
  {
    if users != [] {
      var init := users[..|users| - 1];
      IndexByHashKeys(init, sha256);
      assert forall i :: 0 <= i < |init| ==> init[i] == users[i];
      var keys := IndexByHash(users, sha256).Keys;
      var want := set i | 0 <= i < |users| :: sha256(users[i].uuid);
      forall h ensures h in keys <==> h in want {
        if h in want {
          var i :| 0 <= i < |users| && sha256(users[i].uuid) == h;
          if i < |init| { assert sha256(init[i].uuid) == h; }
        }
      }
    }
  }

  /** The id table holds exactly the listed ids. */
  lemma {:induction false} IndexByIdKeys(users: seq<User>, sha256: Hasher)
    ensures IndexById(users, sha256).Keys == set i | 0 <= i < |users| :: users[i].id
  {
    if users != [] {
      var init := users[..|users| - 1];
      IndexByIdKeys(init, sha256);
      assert forall i :: 0 <= i < |init| ==> init[i] == users[i];
      var keys := IndexById(users, sha256).Keys;
      var want := set i | 0 <= i < |users| :: users[i].id;
      forall id ensures id in keys <==> id in want {
        if id in want {
          var i :| 0 <= i < |users| && users[i].id == id;
          if i < |init| { assert init[i].id == id; }
        }
      }
    }
  }

  /** On a shared fingerprint, the last user in the list is the one filed. */
  lemma {:induction false} IndexByHashLastWins(users: seq<User>, sha256: Hasher, i: nat)
    requires i < |users|
    requires forall j :: i < j < |users| ==> sha256(users[j].uuid) != sha256(users[i].uuid)
    ensures sha256(users[i].uuid) in IndexByHash(users, sha256)
    ensures IndexByHash(users, sha256)[sha256(users[i].uuid)] == UserEntry(users[i], sha256(users[i].uuid))
  {
    var n := |users|;
    if i < n - 1 {
      var init := users[..n - 1];
      assert init[i] == users[i];
      forall j | i < j < |init| ensures sha256(init[j].uuid) != sha256(init[i].uuid) {
        assert init[j] == users[j];
      }
      IndexByHashLastWins(init, sha256, i);
    }
  }

  /** On a shared id, the last user in the list is the one filed. */
  lemma {:induction false} IndexByIdLastWins(users: seq<User>, sha256: Hasher, i: nat)
    requires i < |users|
    requires forall j :: i < j < |users| ==> users[j].id != users[i].id
    ensures users[i].id in IndexById(users, sha256)
    ensures IndexById(users, sha256)[users[i].id] == UserEntry(users[i], sha256(users[i].uuid))
  {
    var n := |users|;
    if i < n - 1 {
      var init := users[..n - 1];
      assert init[i] == users[i];
      forall j | i < j < |init| ensures init[j].id != init[i].id {
        assert init[j] == users[j];
      }
      IndexByIdLastWins(init, sha256, i);
    }
  }

  /** The directory never holds more fingerprints than the list had users. */
  lemma {:induction false} IndexByHashSize(users: seq<User>, sha256: Hasher)
    ensures |IndexByHash(users, sha256)| <= |users|
  {
    if users != [] {
      IndexByHashSize(users[..|users| - 1], sha256);
    }
  }

  /**
   * In every state the manager can reach, an accepted fingerprint is the
   * SHA-256 of the UUID of the user filed under it, and the reported id is
   * that user's id.
   */
  lemma AcceptedIsUuidHash(m: AuthManager, h: seq<byte>)
    requires m.Valid()
    ensures m.CheckAuth(h).1 ==> m.sha256(m.usersByHash[h].user.uuid) == h
    ensures m.CheckAuth(h).1 ==> m.CheckAuth(h).0 == m.usersByHash[h].user.id
  {
  }

  /**
   * After a refresh from `users`, a 32-byte fingerprint authenticates
   * exactly when it is the hash of some listed UUID, and then it yields the
   * id of the last user listed with that UUID hash.
   */
  lemma CheckAuthAfterRefresh(m: AuthManager, users: seq<User>, h: seq<byte>)
    requires m.usersByHash == IndexByHash(users, m.sha256)
    ensures m.CheckAuth(h).1 <==> exists i :: 0 <= i < |users| && m.sha256(users[i].uuid) == h
    ensures m.CheckAuth(h).1 ==> exists i ::
      && 0 <= i < |users|
      && m.sha256(users[i].uuid) == h
      && m.CheckAuth(h).0 == users[i].id
      && (forall j :: i < j < |users| ==> m.sha256(users[j].uuid) != h)
  {
    IndexByHashKeys(users, m.sha256);
    if m.CheckAuth(h).1 {
      var i :| 0 <= i < |users| && m.sha256(users[i].uuid) == h;
      while exists j :: i < j < |users| && m.sha256(users[j].uuid) == h
        invariant 0 <= i < |users| && m.sha256(users[i].uuid) == h
        decreases |users| - i
      {
        var k :| i < k < |users| && m.sha256(users[k].uuid) == h;
        i := k;
      }
      IndexByHashLastWins(users, m.sha256, i);
    }
  }
}
