/**
 * CvsHelperPassword: the CVS helper that commits with a configured password. It fixes the
 * commit mode and credentials the commit-review pipeline checks before a batch, and picks the
 * password the CVS client is created with.
 */
module CvsHelper {
  import opened Wrappers
  import opened CommitModel

  /** The helper's configuration: the CVS root and the configured password (`None` when the
      injected value is null). */
  datatype CvsConfig = CvsConfig(root: string, cvsPassword: Option<string>)

  /** The CvsTools client `createSCM` constructs: root, password and checkout folder. */
  datatype CvsClient = CvsClient(root: string, password: Option<string>, folder: string)

  /** `createSCM(commitMode, username, password, cvsFolder)`: the configured password in
      internal mode, the caller's password in every other mode; the username is not used
      (it is part of the CVS root). */
  function CreateScm(c: CvsConfig, mode: CommitMode, username: Option<string>, password: Option<string>,
                     folder: string): (t: CvsClient)
    ensures t.root == c.root && t.folder == folder
    ensures mode == Internal ==> t.password == c.cvsPassword
    ensures mode != Internal ==> t.password == password
  {
    var realPassword := if mode == Internal then c.cvsPassword else password;
    CvsClient(c.root, realPassword, folder)
  }

  /** `isSupportAnonymus()`. */
  function IsSupportAnonymus(c: CvsConfig): bool {
    false
  }

  /** `getCommitMode()`. */
  function GetCommitMode(c: CvsConfig): CommitMode {
    Explicit
  }

  /** `getCommitUserName()`: the empty string, never null. */
  function GetCommitUserName(c: CvsConfig): Option<string> {
    Some("")
  }

  /** `getCommitPassword()`. */
  function GetCommitPassword(c: CvsConfig): Option<string> {
    c.cvsPassword
  }

  /** The pipeline's checks on mode and credentials pass for this helper exactly when a password
      is configured; otherwise they fail with the password message. No mode it reports is
      anonymous, so anonymous support never matters. */
  lemma ModeCheckWithHelper(c: CvsConfig)
    ensures var r := ModeCheck(GetCommitMode(c), GetCommitUserName(c), GetCommitPassword(c), IsSupportAnonymus(c));
      && (r.None? <==> c.cvsPassword.Some?)
      && (r.Some? ==> r.value == CommitException("If explicit mode is selected, a password is required.", true))
    ensures GetCommitMode(c) != Anonymus
  {
  }

  /** Whatever the mode, the client the pipeline makes this helper create (with the mode and
      password the helper itself reports) gets the configured password. */
  lemma ScmPasswordIsConfigured(c: CvsConfig, folder: string)
    ensures CreateScm(c, GetCommitMode(c), GetCommitUserName(c), GetCommitPassword(c), folder).password == c.cvsPassword
  {
  }

  /** A pipeline configured by this helper without a password rejects every non-empty batch
      before it creates or invokes anything. */
  lemma CommitWithoutPassword<W, P>(c: CvsConfig, b: Backend<W>, d: DiffLib<P>, ids: seq<int>, st: State<W>)
    requires b.mode == GetCommitMode(c) && b.username == GetCommitUserName(c)
    requires b.password == GetCommitPassword(c) && b.supportAnonymus == IsSupportAnonymus(c)
    requires c.cvsPassword.None? && ids != []
    ensures Commit(b, d, ids, st)
         == Outcome(Throw(Checked(CommitException("If explicit mode is selected, a password is required.", true))), st)
  {
  }
}
