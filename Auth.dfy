/** The identity store of src/app/services/auth.service.ts: registered users and
    the optional session. The SHA-256 digest of the UTF-8 password (FIPS 180-4)
    is not modelled: the service is given it as an uninterpreted function
    `digest`, and only the hex encoding of its 32 bytes is. */
module Auth {
  import opened Seqs
  import opened Hex

  /** A SHA-256 digest: 32 bytes. */
  type Digest = s: seq<byte> | |s| == 32 witness seq(32, _ => 0)

  datatype User = User(id: string, username: string, fullName: string, passwordHash: string)

  predicate UniqueUsernames(users: seq<User>) {
    forall i, j :: 0 <= i < j < |users| ==> users[i].username != users[j].username
  }

  /** `users.find(u => u.username === username)`: the position of the first
      user with that username, or None where JavaScript returns undefined. */
  function FindUser(users: seq<User>, username: string): (r: Option<nat>)
    ensures r.Some? ==> r.value < |users| && users[r.value].username == username
    ensures forall j :: 0 <= j < |users| && (r.None? || j < r.value) ==> users[j].username != username
  {
    FindFirst(users, (u: User) => u.username == username)
  }

  /** With unique usernames the lookup finds the one user who has the name. */
  lemma FindUniqueUser(users: seq<User>, i: nat)
    requires UniqueUsernames(users) && i < |users|
    ensures FindUser(users, users[i].username) == Some(i)
  {
  }

  /** `hashPassword`: the digest of the password as 64 lowercase hex characters. */
  function PasswordHash(digest: string -> Digest, password: string): (r: string)
    ensures |r| == 64
    ensures forall i :: 0 <= i < |r| ==> IsHexChar(r[i])
  {
    HexEncode(digest(password))
  }

  /** Comparing stored hex hashes is the same as comparing digests: the hex
      step neither merges nor separates passwords. */
  lemma HashesMatchIffDigestsMatch(digest: string -> Digest, p: string, q: string)
    ensures PasswordHash(digest, p) == PasswordHash(digest, q) <==> digest(p) == digest(q)
  {
    EncodeInjective(digest(p), digest(q));
  }

  /** For a registered user, the check `login` makes on the hash it finds
      accepts exactly the passwords whose digest equals the registered one's. */
  lemma LoginChecksRegisteredPassword(digest: string -> Digest, users: seq<User>, i: nat, registered: string, password: string)
    requires UniqueUsernames(users) && i < |users|
    requires users[i].passwordHash == PasswordHash(digest, registered)
    ensures FindUser(users, users[i].username) == Some(i)
    ensures users[i].passwordHash == PasswordHash(digest, password) <==> digest(password) == digest(registered)
  {
    FindUniqueUser(users, i);
    HashesMatchIffDigestsMatch(digest, password, registered);
  }

  class AuthService {
    const digest: string -> Digest
    var users: seq<User>
    var session: Option<User>

    /** The service starts from whatever the browser storage held. */
    constructor (digest: string -> Digest, storedUsers: seq<User>, storedSession: Option<User>)
      ensures this.digest == digest && users == storedUsers && session == storedSession
    {
      this.digest := digest;
      users := storedUsers;
      session := storedSession;
    }

    /** Fails on a taken username; otherwise appends one user holding the
        password's hash, keeps usernames unique and does not log anyone in. */
    method Register(username: string, password: string, fullName: string, id: string) returns (ok: bool)
      modifies this
      ensures ok <==> FindUser(old(users), username).None?
      ensures users == if ok then old(users) + [User(id, username, fullName, PasswordHash(digest, password))]
                       else old(users)
      ensures session == old(session)
      ensures old(UniqueUsernames(users)) ==> UniqueUsernames(users)
    {
      if FindUser(users, username).Some? {
        return false;
      }
      var passwordHash := PasswordHash(digest, password);
      users := users + [User(id, username, fullName, passwordHash)];
      ok := true;
    }

    /** Succeeds exactly when the first user with that username stores the hash
        of this password, and then makes that user the session; a failure
        leaves the session as it was. Users never change. */
    method Login(username: string, password: string) returns (ok: bool)
      modifies this
      ensures users == old(users)
      ensures ok <==> FindUser(users, username).Some?
                      && users[FindUser(users, username).value].passwordHash == PasswordHash(digest, password)
      ensures session == if ok then Some(users[FindUser(users, username).value]) else old(session)
    {
      var found := FindUser(users, username);
      if found.None? {
        return false;
      }
      var user := users[found.value];
      var passwordHash := PasswordHash(digest, password);
      if user.passwordHash == passwordHash {
        session := Some(user);
        return true;
      }
      ok := false;
    }

    /** Clears the session; users never change. */
    method Logout()
      modifies this
      ensures session == None
      ensures users == old(users)
    {
      session := None;
    }
  }

  /** Registering "bob" twice fails the second time; a wrong password is
      refused (when its digest differs) and the right one logs Bob in. */
  method RegisterTwiceThenLogin(digest: string -> Digest) returns (first: bool, second: bool, wrong: bool, right: bool)
    requires digest("wrong") != digest("pw")
    ensures first && !second && !wrong && right
  {
    var auth := new AuthService(digest, [], None);
    first := auth.Register("bob", "pw", "Bob", "id-1");
    assert first;
    second := auth.Register("bob", "pw", "Bob", "id-2");
    assert !second && |auth.users| == 1;
    HashesMatchIffDigestsMatch(digest, "wrong", "pw");
    wrong := auth.Login("bob", "wrong");
    assert !wrong && auth.session == None;
    right := auth.Login("bob", "pw");
    assert right && auth.session == Some(User("id-1", "bob", "Bob", PasswordHash(digest, "pw")));
    auth.Logout();
    assert auth.session == None;
  }
}
