/**
 * The server's identity (cmd/server/myserver.go): plain mode compares the
 * client's fingerprint with one stored SHA-256 of the password; V2board
 * mode asks the user directory and forwards traffic to the accountant.
 * The fields are set by the constructors and never change afterwards.
 */
module Server {
  import opened Panel
  import opened Traffic
  import opened Auth

  class MyServer {
    /** The stored SHA-256 of the password (plain mode); empty in V2board mode. */
    const passwordSha256: seq<byte>
    /** The user directory (V2board mode), or null. */
    const v2boardAuth: AuthManager?
    /** The traffic accountant (V2board mode), or null. */
    const v2boardTraffic: TrafficManager?

    ghost predicate Valid()
      reads v2boardTraffic
    {
      v2boardTraffic != null ==> v2boardTraffic.Valid()
    }

    /** NewMyServer: plain mode, no directory and no accountant. */
    constructor Plain(passwordSha256: seq<byte>)
      ensures Valid()
      ensures this.passwordSha256 == passwordSha256
      ensures v2boardAuth == null && v2boardTraffic == null
    {
      this.passwordSha256 := passwordSha256;
      v2boardAuth := null;
      v2boardTraffic := null;
    }

    /** NewMyServerV2board: V2board mode, with no stored password hash. */
    constructor V2board(authMgr: AuthManager?, trafficMgr: TrafficManager?)
      requires trafficMgr != null ==> trafficMgr.Valid()
      ensures Valid()
      ensures passwordSha256 == []
      ensures v2boardAuth == authMgr && v2boardTraffic == trafficMgr
    {
      passwordSha256 := [];
      v2boardAuth := authMgr;
      v2boardTraffic := trafficMgr;
    }

    /**
     * The answer authenticate gives for a fingerprint: the directory's
     * answer in V2board mode, otherwise (0, whether it equals the stored hash).
     */
    function Verdict(passwordHash: seq<byte>): (int, bool)
      reads v2boardAuth
    {
      if v2boardAuth != null then v2boardAuth.CheckAuth(passwordHash)
      else (0, passwordHash == passwordSha256)
    }

    /**
     * authenticate: with a directory, exactly its CheckAuth answer; in plain
     * mode, acceptance when the input has the stored hash's length and
     * equals it byte for byte, and user id 0 either way. `compared` counts
     * the byte comparisons made: none at all on a length mismatch.
     */
    method Authenticate(passwordHash: seq<byte>) returns (userId: int, ok: bool, ghost compared: nat)
      ensures v2boardAuth != null ==> (userId, ok) == v2boardAuth.CheckAuth(passwordHash)
      ensures v2boardAuth == null ==> userId == 0
      ensures v2boardAuth == null ==> (ok <==> passwordHash == passwordSha256)
      ensures v2boardAuth == null && |passwordHash| != |passwordSha256| ==> compared == 0
      ensures compared <= |passwordHash|
      ensures (userId, ok) == Verdict(passwordHash)
    {
      compared := 0;
      if v2boardAuth != null {
        var r := v2boardAuth.CheckAuth(passwordHash);
        return r.0, r.1, compared;
      }
      if |passwordHash| == |passwordSha256| {
        var matched := true;
        var i := 0;
        while i < |passwordHash|
          invariant 0 <= i <= |passwordHash|
          invariant compared == i
          invariant matched
          invariant passwordHash[..i] == passwordSha256[..i]
        {
          compared := compared + 1;
          if passwordHash[i] != passwordSha256[i] {
            matched := false;
            break;
          }
          i := i + 1;
        }
        if matched {
          assert passwordHash == passwordHash[..i];
          return 0, true, compared;
        }
      }
      return 0, false, compared;
    }

    /**
     * recordTraffic: forwards to the accountant's Record only when there is
     * an accountant and the user id is positive; otherwise nothing changes.
     */
    method RecordTraffic(userId: int, upload: int, download: int)
      requires Valid()
      modifies v2boardTraffic
      ensures Valid()
      ensures v2boardTraffic != null && userId > 0 ==>
        v2boardTraffic.counters == Recorded(old(v2boardTraffic.counters), userId, upload, download)
      ensures v2boardTraffic != null && userId <= 0 ==> v2boardTraffic.counters == old(v2boardTraffic.counters)
    {
      if v2boardTraffic != null && userId > 0 {
        v2boardTraffic.Record(userId, upload, download);
      }
    }
  }
}
