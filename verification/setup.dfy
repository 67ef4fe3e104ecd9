/** The one-time setup wizard, which creates the root account and records
    the operation modes, and the first-use flag a user loses after their
    first visit. */
module SetupModel {
  import opened Results
  import opened Query
  import Text

  /** The columns of a `users` row this model reads or writes. */
  datatype User = User(
    id: nat,
    username: string,
    phone: string,
    role: int,
    status: int,
    displayName: string,
    quota: int,
    isFirstUse: int)

  /** One row of the `setups` table. */
  datatype SetupRecord = SetupRecord(version: string, initializedAt: int)

  /** What setup reads and writes: the in-memory "setup done" flag and
      operation modes, the users, the options table and the setup rows. */
  datatype SetupState = SetupState(
    done: bool,
    users: seq<User>,
    selfUseMode: bool,
    demoSite: bool,
    options: map<string, string>,
    records: seq<SetupRecord>)

  datatype SetupRequest = SetupRequest(username: string, phone: string, code: string, selfUse: bool, demoSite: bool)

  /** Outcomes of the wizard's I/O, in the order it performs it: request
      binding, root insert, the two option writes and the setup row. */
  datatype SetupIo = SetupIo(bindOk: bool, rootInsertOk: bool, selfUseSaveOk: bool, demoSaveOk: bool, recordOk: bool)

  const RoleRootUser := 100
  const UserStatusEnabled := 1
  const RootQuota := 100000000
  const RootDisplayName := "Root User"
  /** Longest root username, in bytes. */
  const UsernameMaxBytes := 12
  /** The phone code setup accepts: there is no code lookup yet. */
  const SetupCode := "1111"
  const SelfUseOption := "SelfUseModeEnabled"
  const DemoSiteOption := "DemoSiteEnabled"

  predicate RootUserExists(users: seq<User>)
  {
    exists u :: u in users && u.role == RoleRootUser
  }

  predicate PhoneTaken(users: seq<User>, phone: string)
  {
    exists u :: u in users && u.phone == phone
  }

  /** `boolToString`: the option value of a flag. */
  function BoolToString(b: bool): (s: string)
    ensures s == "true" <==> b
    ensures s == "false" <==> !b
  {
    if b then "true" else "false"
  }

  /** The root account setup creates. */
  function RootUser(id: nat, req: SetupRequest, firstUseDefault: int): User
  {
    User(id, req.username, req.phone, RoleRootUser, UserStatusEnabled, RootDisplayName, RootQuota, firstUseDefault)
  }

  /** The account part of `PostSetup`: skipped when a root exists;
      otherwise the checks run in order (username bytes, empty phone, empty
      code, phone in use, wrong code) and only then is the root inserted.
      `firstUseDefault` is the `is_first_use` column default the insert
      applies. */
  function CreateRootIfNeeded(st: SetupState, req: SetupRequest, io: SetupIo, firstUseDefault: int): (r: Result<SetupState>)
    ensures RootUserExists(st.users) ==> r == Ok(st)
    ensures !RootUserExists(st.users) && Text.ByteLen(req.username) > UsernameMaxBytes ==> r == Err(Invalid(UsernameTooLong))
    ensures r.Ok? && !RootUserExists(st.users) ==>
      && Text.ByteLen(req.username) <= UsernameMaxBytes && req.phone != "" && !PhoneTaken(st.users, req.phone)
      && req.code == SetupCode && io.rootInsertOk
      && r.value == st.(users := st.users + [RootUser(|st.users| + 1, req, firstUseDefault)])
    ensures r.Err? && r.error != StoreFailure ==> r.error.Invalid?
  {
    if RootUserExists(st.users) then Ok(st)
    else if Text.ByteLen(req.username) > UsernameMaxBytes then Err(Invalid(UsernameTooLong))
    else if req.phone == "" then Err(Invalid(MissingParameter))
    else if req.code == "" then Err(Invalid(MissingParameter))
    else if PhoneTaken(st.users, req.phone) then Err(Invalid(PhoneInUse))
    else if req.code != SetupCode then Err(Invalid(CodeMismatch))
    else if !io.rootInsertOk then Err(StoreFailure)
    else Ok(st.(users := st.users + [RootUser(|st.users| + 1, req, firstUseDefault)]))
  }

  /** `PostSetup`. After the account part the modes are set in memory, each
      is written to the options table, the done flag is raised, and the
      setup row is inserted; a failure stops the sequence and keeps what
      was done before it, the raised flag included. */
  function PostSetup(st: SetupState, req: SetupRequest, io: SetupIo, version: string, now: int, firstUseDefault: int): (r: Reply<SetupState, ()>)
    ensures st.done ==> r == Reply(st, Err(Invalid(AlreadySetUp)))
    ensures r.result.Err? && r.result.error.Invalid? ==> r.state == st
    ensures r.result.Ok? ==>
      && !st.done && r.state.done
      && r.state.selfUseMode == req.selfUse && r.state.demoSite == req.demoSite
      && SelfUseOption in r.state.options && r.state.options[SelfUseOption] == BoolToString(req.selfUse)
      && DemoSiteOption in r.state.options && r.state.options[DemoSiteOption] == BoolToString(req.demoSite)
      && r.state.records == st.records + [SetupRecord(version, now)]
      && RootUserExists(r.state.users)
    ensures r.result.Ok? && RootUserExists(st.users) ==> r.state.users == st.users
    ensures r.result.Ok? && !RootUserExists(st.users) ==>
      r.state.users == st.users + [RootUser(|st.users| + 1, req, firstUseDefault)]
    ensures |st.users| <= |r.state.users| <= |st.users| + 1
  {
    if st.done then Reply(st, Err(Invalid(AlreadySetUp)))
    else if !io.bindOk then Reply(st, Err(Invalid(BadFormat)))
    else match CreateRootIfNeeded(st, req, io, firstUseDefault)
      case Err(e) => Reply(st, Err(e))
      case Ok(s1) =>
        assert s1.users[|s1.users| - 1] in s1.users;
        var s2 := s1.(selfUseMode := req.selfUse, demoSite := req.demoSite);
        if !io.selfUseSaveOk then Reply(s2, Err(StoreFailure))
        else
          var s3 := s2.(options := s2.options[SelfUseOption := BoolToString(req.selfUse)]);
          if !io.demoSaveOk then Reply(s3, Err(StoreFailure))
          else
            var s4 := s3.(options := s3.options[DemoSiteOption := BoolToString(req.demoSite)], done := true);
            if !io.recordOk then Reply(s4, Err(StoreFailure))
            else Reply(s4.(records := s4.records + [SetupRecord(version, now)]), Ok(()))
  }

  /** Setup runs once: after a success every later request is refused and
      changes nothing. */
  lemma SetupRunsOnce(st: SetupState, req: SetupRequest, io: SetupIo, version: string, now: int, d: int, req2: SetupRequest, io2: SetupIo, version2: string, now2: int, d2: int)
    requires PostSetup(st, req, io, version, now, d).result.Ok?
    ensures var after := PostSetup(st, req, io, version, now, d).state;
      PostSetup(after, req2, io2, version2, now2, d2) == Reply(after, Err(Invalid(AlreadySetUp)))
  {
  }

  /** With a root account present, the account fields of the request are
      not looked at: any username, phone and code give the same answer. */
  lemma RootExistsSkipsAccount(st: SetupState, req: SetupRequest, io: SetupIo, version: string, now: int, d: int, username: string, phone: string, code: string)
    requires RootUserExists(st.users)
    ensures PostSetup(st, req, io, version, now, d) ==
      PostSetup(st, req.(username := username, phone := phone, code := code), io, version, now, d)
  {
  }

  /** When only the setup row fails to insert, the request fails but the
      done flag is already raised: the wizard cannot be run again. */
  lemma FailedRecordStillCloses(st: SetupState, req: SetupRequest, io: SetupIo, version: string, now: int, d: int)
    requires !st.done && io.bindOk && io.selfUseSaveOk && io.demoSaveOk && !io.recordOk
    requires CreateRootIfNeeded(st, req, io, d).Ok?
    ensures var r := PostSetup(st, req, io, version, now, d);
      r.result == Err(StoreFailure) && r.state.done && r.state.records == st.records
  {
  }

  /** Characters of three UTF-8 bytes or more (CJK text, for one) count at
      least three each against a byte limit. */
  lemma {:induction false} WideCharsCountTriple(s: string)
    requires forall i :: 0 <= i < |s| ==> s[i] as int >= 0x800
    ensures Text.ByteLen(s) >= 3 * |s|
    decreases |s|
  {
    if |s| > 0 {
      WideCharsCountTriple(s[1..]);
    }
  }

  /** The username limit counts bytes: a root username of five or more
      such characters is refused, though it is well under twelve
      characters. */
  lemma WideUsernameRefused(st: SetupState, req: SetupRequest, io: SetupIo, version: string, now: int, d: int)
    requires !st.done && io.bindOk && !RootUserExists(st.users)
    requires |req.username| >= 5 && forall i :: 0 <= i < |req.username| ==> req.username[i] as int >= 0x800
    ensures PostSetup(st, req, io, version, now, d) == Reply(st, Err(Invalid(UsernameTooLong)))
  {
    WideCharsCountTriple(req.username);
  }

  // ---------------------------------------------------------------------
  // First use
  // ---------------------------------------------------------------------

  function FirstUseOf(uid: int): User -> bool { (u: User) => u.id == uid && u.isFirstUse == 1 }
  function ClearFirstUse(u: User): User { u.(isFirstUse := 0) }

  /** `MarkUserFirstUseIfNeeded`: user 0 is a no-op; otherwise the row with
      that key, when its flag is 1, gets flag 0. `writeOk` is whether the
      UPDATE succeeds. */
  function MarkFirstUse(users: seq<User>, uid: int, writeOk: bool): (r: Reply<seq<User>, ()>)
    ensures uid == 0 ==> r == Reply(users, Ok(()))
    ensures r.result.Err? ==> r.state == users && r.result.error == StoreFailure
    ensures |r.state| == |users|
    ensures forall i :: 0 <= i < |users| && users[i].id != uid ==> r.state[i] == users[i]
    ensures forall i :: 0 <= i < |users| ==> r.state[i] == users[i].(isFirstUse := r.state[i].isFirstUse)
    ensures r.result.Ok? && uid != 0 ==> forall u :: u in r.state && u.id == uid ==> u.isFirstUse != 1
    ensures forall i :: 0 <= i < |users| && users[i].isFirstUse != 1 ==> r.state[i] == users[i]
  {
    if uid == 0 then Reply(users, Ok(()))
    else if !writeOk then Reply(users, Err(StoreFailure))
    else
      var after := UpdateWhere(users, FirstUseOf(uid), ClearFirstUse);
      assert forall u :: u in after && u.id == uid ==> u.isFirstUse != 1 by {
        forall u | u in after && u.id == uid ensures u.isFirstUse != 1 {
          var k :| 0 <= k < |after| && after[k] == u;
        }
      }
      Reply(after, Ok(()))
  }

  /** Marking twice is marking once. */
  lemma MarkFirstUseIsIdempotent(users: seq<User>, uid: int)
    ensures var once := MarkFirstUse(users, uid, true).state;
      MarkFirstUse(once, uid, true).state == once
  {
    var once := MarkFirstUse(users, uid, true).state;
    var twice := MarkFirstUse(once, uid, true).state;
    assert forall i :: 0 <= i < |once| ==> twice[i] == once[i];
  }

  /** The flag only ever moves from 1 to 0: no call sets it, and every
      other flag value survives. */
  lemma MarkFirstUseOnlyClears(users: seq<User>, uid: int, writeOk: bool)
    ensures var r := MarkFirstUse(users, uid, writeOk).state;
      forall i :: 0 <= i < |users| && r[i].isFirstUse != users[i].isFirstUse ==>
        users[i].isFirstUse == 1 && r[i].isFirstUse == 0 && users[i].id == uid
  {
  }
}
