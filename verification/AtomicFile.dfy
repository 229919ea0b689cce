/** Crash-atomic replacement of one file by any number of concurrent writers.

A writer creates a fresh temporary, writes and syncs it, renames it over the destination, validates,
and syncs the directory. Until a directory sync, a crash may bring the destination entry back to any
value it has had since the last sync; a file not synced since its last write may come back with any
content. Temporary names are assumed fresh. */
module AtomicFile {
  import opened Common
  import FileTrace

  type WriterId = nat
  type Inode = nat
  type Bytes = seq<int>

  datatype Name = Destination | Temporary(nonce: nat)

  datatype File = File(content: Bytes, synced: bool)

  datatype Phase =
    | Started
    | Filling(nonce: nat, inode: Inode)
    | Synced(nonce: nat, inode: Inode)
    | Renamed(nonce: nat, at: nat)        // `at` is the position of its rename in the history
    | CleaningUp(nonce: nat, renamed: bool)
    | Succeeded(nonce: nat, at: nat)
    | Failed(ending: Ending)
    | Dead

  /** How a failed write ended: before it had a temporary, with one that did not pass validation, with its
  temporary removed, or with a removal that failed. */
  datatype Ending = NoTemporary | NotValid(nonce: nat) | Removed(nonce: nat) | RemovalFailed(nonce: nat, renamed: bool)

  datatype Writer = Writer(bytes: Bytes, phase: Phase)

  /** `history` lists the values of the destination entry, `settled` the last one known to be on disk; `owner`
  says which writer made each temporary name, and `crashed` whether there was a crash. */
  datatype State = State(
    original: Option<Bytes>,
    entries: map<Name, Inode>,
    files: map<Inode, File>,
    author: map<Inode, WriterId>,
    owner: map<nat, WriterId>,
    writers: map<WriterId, Writer>,
    history: seq<Option<Inode>>,
    settled: nat,
    crashed: bool
  )

  datatype Action =
    | Begin(bytes: Bytes)
    | Refuse
    | CreateTemporary(nonce: nat, inode: Inode)
    | LeaveTemporary
    | WriteSome(count: nat)
    | SyncFile
    | Rename
    | SyncDirectory
    | Fail
    | RemoveTemporary
    | RemovalFails

  /** A step of one writer, or a crash of the machine under all of them. */
  datatype Step =
    | WriterStep(w: WriterId, act: Action)
    | Crash(survivor: nat, garbage: map<Inode, Bytes>, kept: set<Name>)

  predicate EnabledWriter(s: State, w: WriterId, act: Action) {
    match act
    case Begin(_) => w !in s.writers
    case Refuse => w in s.writers && s.writers[w].phase.Started?
    case CreateTemporary(nonce, inode) =>
      && w in s.writers && s.writers[w].phase.Started?
      && nonce !in s.owner && Temporary(nonce) !in s.entries && inode !in s.files
    case LeaveTemporary => w in s.writers && s.writers[w].phase.Filling?
    case WriteSome(count) =>
      && w in s.writers && s.writers[w].phase.Filling? && s.writers[w].phase.inode in s.files
      && |s.files[s.writers[w].phase.inode].content| + count <= |s.writers[w].bytes|
    case SyncFile =>
      && w in s.writers && s.writers[w].phase.Filling? && s.writers[w].phase.inode in s.files
      && s.files[s.writers[w].phase.inode].content == s.writers[w].bytes
    case Rename =>
      && w in s.writers && s.writers[w].phase.Synced?
      && Temporary(s.writers[w].phase.nonce) in s.entries
    case SyncDirectory => w in s.writers && s.writers[w].phase.Renamed? && |s.history| > 0
    case Fail =>
      w in s.writers && (s.writers[w].phase.Filling? || s.writers[w].phase.Synced? || s.writers[w].phase.Renamed?)
    case RemoveTemporary =>
      w in s.writers && s.writers[w].phase.CleaningUp? && Temporary(s.writers[w].phase.nonce) in s.entries
    case RemovalFails => w in s.writers && s.writers[w].phase.CleaningUp?
  }

  predicate Enabled(s: State, step: Step) {
    match step
    case WriterStep(w, act) => EnabledWriter(s, w, act)
    case Crash(survivor, _, _) => s.settled <= survivor < |s.history|
  }

  function SetPhase(s: State, w: WriterId, phase: Phase): State
    requires w in s.writers
  {
    s.(writers := s.writers[w := s.writers[w].(phase := phase)])
  }

  function AfterCrash(f: File, inode: Inode, garbage: map<Inode, Bytes>): File {
    if f.synced || inode !in garbage then f else File(garbage[inode], false)
  }

  function SurvivingEntries(s: State, survivor: nat, kept: set<Name>): map<Name, Inode>
    requires survivor < |s.history|
  {
    var temporaries := map n | n in s.entries && n in kept && n != Destination :: s.entries[n];
    if s.history[survivor].Some? then temporaries[Destination := s.history[survivor].value] else temporaries
  }

  function Stopped(writer: Writer): Writer {
    if writer.phase.Succeeded? || writer.phase.Failed? then writer else writer.(phase := Dead)
  }

  function ApplyWriter(s: State, w: WriterId, act: Action): State
    requires EnabledWriter(s, w, act)
  {
    match act
    case Begin(bytes) => s.(writers := s.writers[w := Writer(bytes, Started)])
    case Refuse => SetPhase(s, w, Failed(NoTemporary))
    case CreateTemporary(nonce, inode) =>
      SetPhase(s, w, Filling(nonce, inode)).(
      entries := s.entries[Temporary(nonce) := inode],
      files := s.files[inode := File([], false)],
      author := s.author[inode := w],
      owner := s.owner[nonce := w])
    case LeaveTemporary => SetPhase(s, w, Failed(NotValid(s.writers[w].phase.nonce)))
    case WriteSome(count) =>
      var inode := s.writers[w].phase.inode;
      s.(files := s.files[inode := File(s.writers[w].bytes[..|s.files[inode].content| + count], false)])
    case SyncFile =>
      var phase := s.writers[w].phase;
      SetPhase(s, w, Synced(phase.nonce, phase.inode)).(
      files := s.files[phase.inode := s.files[phase.inode].(synced := true)])
    case Rename =>
      var phase := s.writers[w].phase;
      var inode := s.entries[Temporary(phase.nonce)];
      SetPhase(s, w, Renamed(phase.nonce, |s.history|)).(
      entries := (s.entries - {Temporary(phase.nonce)})[Destination := inode],
      history := s.history + [Some(inode)])
    case SyncDirectory =>
      var phase := s.writers[w].phase;
      SetPhase(s, w, Succeeded(phase.nonce, phase.at)).(settled := |s.history| - 1)
    case Fail => SetPhase(s, w, CleaningUp(s.writers[w].phase.nonce, s.writers[w].phase.Renamed?))
    case RemoveTemporary =>
      var nonce := s.writers[w].phase.nonce;
      SetPhase(s, w, Failed(Removed(nonce))).(entries := s.entries - {Temporary(nonce)})
    case RemovalFails =>
      SetPhase(s, w, Failed(RemovalFailed(s.writers[w].phase.nonce, s.writers[w].phase.renamed)))
  }

  function ApplyCrash(s: State, survivor: nat, garbage: map<Inode, Bytes>, kept: set<Name>): State
    requires s.settled <= survivor < |s.history|
  {
    s.(entries := SurvivingEntries(s, survivor, kept),
       files := map i | i in s.files :: AfterCrash(s.files[i], i, garbage),
       writers := map w | w in s.writers :: Stopped(s.writers[w]),
       history := s.history[..survivor + 1],
       settled := survivor,
       crashed := true)
  }

  function Apply(s: State, step: Step): State
    requires Enabled(s, step)
  {
    match step
    case WriterStep(w, act) => ApplyWriter(s, w, act)
    case Crash(survivor, garbage, kept) => ApplyCrash(s, survivor, garbage, kept)
  }

  ghost predicate Next(s: State, s': State) {
    exists step :: Enabled(s, step) && s' == Apply(s, step)
  }

  /** No writer; the destination, if present, is a synced file and the directory is on disk. */
  ghost predicate Initial(s: State) {
    && s.writers == map[] && s.author == map[] && s.owner == map[] && s.settled == 0 && !s.crashed
    && s.history == [if Destination in s.entries then Some(s.entries[Destination]) else None]
    && s.entries.Keys <= {Destination}
    && s.original == (if Destination in s.entries && s.entries[Destination] in s.files
                      then Some(s.files[s.entries[Destination]].content) else None)
    && (forall n :: n in s.entries ==> s.entries[n] in s.files && s.files[s.entries[n]].synced)
  }

  ghost predicate IsRun(run: seq<State>) {
    && |run| > 0 && Initial(run[0])
    && forall i :: 0 < i < |run| ==> Next(run[i - 1], run[i])
  }

  ghost predicate Reachable(s: State) {
    exists run :: IsRun(run) && run[|run| - 1] == s
  }

  // ---------------------------------------------------------------- the inductive invariant

  /** A file that was ever at the destination: synced, and either the original or one writer's bytes. */
  ghost predicate WholeFile(s: State, inode: Inode) {
    && inode in s.files && s.files[inode].synced
    && if inode in s.author
       then s.author[inode] in s.writers && s.files[inode].content == s.writers[s.author[inode]].bytes
       else s.original == Some(s.files[inode].content)
  }

  ghost predicate HistoryOk(s: State) {
    && s.settled < |s.history|
    && (s.history[|s.history| - 1].Some? <==> Destination in s.entries)
    && (Destination in s.entries ==> s.history[|s.history| - 1] == Some(s.entries[Destination]))
    && (forall i :: 0 <= i < |s.history| && s.history[i].Some? ==> WholeFile(s, s.history[i].value))
    && (forall i :: 0 < i < |s.history| ==> s.history[i].Some? && s.history[i].value in s.author)
    && (s.history[0].None? ==> s.original.None?)
    && (s.history[0].Some? ==> s.history[0].value !in s.author)
  }

  /** A writer still filling its temporary is the only one to reach that file. */
  ghost predicate PrivateFile(s: State, w: WriterId, nonce: nat, inode: Inode) {
    && inode in s.files && inode in s.author && s.author[inode] == w
    && (Temporary(nonce) in s.entries ==> s.entries[Temporary(nonce)] == inode)
    && (forall i :: 0 <= i < |s.history| ==> s.history[i] != Some(inode))
  }

  ghost predicate WriterOk(s: State, w: WriterId)
    requires w in s.writers
  {
    match s.writers[w].phase
    case Filling(nonce, inode) => PrivateFile(s, w, nonce, inode) && s.files[inode].content <= s.writers[w].bytes
    case Synced(nonce, inode) => PrivateFile(s, w, nonce, inode) && s.files[inode] == File(s.writers[w].bytes, true)
    case Renamed(_, at) =>
      && 0 < at < |s.history|
      && s.history[at].Some? && s.history[at].value in s.author && s.author[s.history[at].value] == w
    case Succeeded(_, at) =>
      && 0 < at <= s.settled && at < |s.history|
      && s.history[at].Some? && s.history[at].value in s.author && s.author[s.history[at].value] == w
    case _ => true
  }

  /** The temporary name a writer has or had. */
  function NonceOf(phase: Phase): Option<nat> {
    match phase
    case Started => None
    case Dead => None
    case Failed(NoTemporary) => None
    case Failed(ending) => Some(ending.nonce)
    case _ => Some(phase.nonce)
  }

  /** Whether the temporary name is still in the directory, as far as the phase says. */
  ghost predicate TemporaryOk(s: State, w: WriterId)
    requires w in s.writers
  {
    match s.writers[w].phase
    case Filling(n, _) => Temporary(n) in s.entries
    case Synced(n, _) => Temporary(n) in s.entries
    case Renamed(n, _) => Temporary(n) !in s.entries
    case CleaningUp(n, renamed) => Temporary(n) in s.entries <==> !renamed
    case Succeeded(n, _) => Temporary(n) !in s.entries
    case Failed(NotValid(n)) => !s.crashed ==> Temporary(n) in s.entries
    case Failed(Removed(n)) => Temporary(n) !in s.entries
    case Failed(RemovalFailed(n, renamed)) =>
      (renamed ==> Temporary(n) !in s.entries) && (!renamed && !s.crashed ==> Temporary(n) in s.entries)
    case _ => true
  }

  ghost predicate TemporariesOk(s: State) {
    forall w :: w in s.writers ==> TemporaryOk(s, w)
  }

  /** A name belongs to the writer that made it, which makes no other. */
  ghost predicate NamesOwned(s: State) {
    && (forall w :: w in s.writers && NonceOf(s.writers[w].phase).Some? ==>
          NonceOf(s.writers[w].phase).value in s.owner && s.owner[NonceOf(s.writers[w].phase).value] == w)
    && (forall n :: n in s.owner ==> OwnerOk(s, n))
    && (forall n :: Temporary(n) in s.entries ==> n in s.owner)
  }

  ghost predicate OwnerOk(s: State, n: nat)
    requires n in s.owner
  {
    && s.owner[n] in s.writers
    && (s.writers[s.owner[n]].phase.Dead? || NonceOf(s.writers[s.owner[n]].phase) == Some(n))
  }

  ghost predicate WritersOk(s: State) {
    forall w :: w in s.writers ==> WriterOk(s, w)
  }

  ghost predicate AuthorsKnown(s: State) {
    && (forall i :: i in s.author ==> i in s.files && s.author[i] in s.writers)
    && (forall n :: n in s.entries ==> s.entries[n] in s.files)
  }

  ghost predicate Inv(s: State) {
    HistoryOk(s) && WritersOk(s) && NamesOwned(s) && TemporariesOk(s) && AuthorsKnown(s)
  }

  lemma InitialInv(s: State)
    requires Initial(s)
    ensures Inv(s)
  {
  }

  // ---------------------------------------------------------------- the steps keep the invariant

  /** A writer's step changes no other writer. */
  lemma OthersStay(s: State, w: WriterId, act: Action)
    requires EnabledWriter(s, w, act)
    ensures var s' := ApplyWriter(s, w, act);
            && s'.writers.Keys == s.writers.Keys + {w} && s'.crashed == s.crashed
            && (forall v :: v in s.writers && v != w ==> s'.writers[v] == s.writers[v])
  {
  }

  /** A writer keeps the name it has, or makes one that nobody ever had. */
  lemma NameStep(s: State, w: WriterId, act: Action)
    requires EnabledWriter(s, w, act)
    ensures var s' := ApplyWriter(s, w, act);
            && w in s'.writers && (act.Begin? <==> w !in s.writers)
            && match act
               case Begin(_) => s'.owner == s.owner && s'.writers[w].phase.Started?
               case CreateTemporary(nonce, _) =>
                 && nonce !in s.owner && s'.owner == s.owner[nonce := w]
                 && NonceOf(s.writers[w].phase) == None && !s.writers[w].phase.Dead?
                 && NonceOf(s'.writers[w].phase) == Some(nonce)
               case _ =>
                 && s'.owner == s.owner && !s.writers[w].phase.Dead?
                 && NonceOf(s'.writers[w].phase) == NonceOf(s.writers[w].phase)
  {
  }

  /** Only the writer itself can take its name out of the directory, and only a new name can enter it. */
  lemma EntriesStep(s: State, w: WriterId, act: Action, n: nat)
    requires EnabledWriter(s, w, act)
    ensures var s' := ApplyWriter(s, w, act);
            && (Temporary(n) in s'.entries ==> Temporary(n) in s.entries || (act.CreateTemporary? && n == act.nonce))
            && (Temporary(n) in s.entries ==>
                  Temporary(n) in s'.entries || (w in s.writers && NonceOf(s.writers[w].phase) == Some(n)))
  {
  }

  lemma OwnNameStep(s: State, w: WriterId, act: Action, v: WriterId)
    requires NamesOwned(s) && EnabledWriter(s, w, act) && v in ApplyWriter(s, w, act).writers
    requires NonceOf(ApplyWriter(s, w, act).writers[v].phase).Some?
    ensures var s' := ApplyWriter(s, w, act);
            var n := NonceOf(s'.writers[v].phase).value;
            n in s'.owner && s'.owner[n] == v
  {
    NameStep(s, w, act);
    OthersStay(s, w, act);
  }

  lemma OwnerStep(s: State, w: WriterId, act: Action, n: nat)
    requires NamesOwned(s) && EnabledWriter(s, w, act) && n in ApplyWriter(s, w, act).owner
    ensures OwnerOk(ApplyWriter(s, w, act), n)
  {
    NameStep(s, w, act);
    OthersStay(s, w, act);
    assert n in s.owner ==> OwnerOk(s, n);
  }

  lemma NamesStep(s: State, w: WriterId, act: Action)
    requires NamesOwned(s) && EnabledWriter(s, w, act)
    ensures NamesOwned(ApplyWriter(s, w, act))
  {
    var s' := ApplyWriter(s, w, act);
    forall v | v in s'.writers && NonceOf(s'.writers[v].phase).Some?
      ensures NonceOf(s'.writers[v].phase).value in s'.owner && s'.owner[NonceOf(s'.writers[v].phase).value] == v
    {
      OwnNameStep(s, w, act, v);
    }
    forall n | n in s'.owner
      ensures OwnerOk(s', n)
    {
      OwnerStep(s, w, act, n);
    }
    forall n | Temporary(n) in s'.entries
      ensures n in s'.owner
    {
      EntriesStep(s, w, act, n);
      NameStep(s, w, act);
    }
  }

  lemma NamesCrash(s: State, survivor: nat, garbage: map<Inode, Bytes>, kept: set<Name>)
    requires NamesOwned(s) && s.settled <= survivor < |s.history|
    ensures NamesOwned(ApplyCrash(s, survivor, garbage, kept))
  {
    var s' := ApplyCrash(s, survivor, garbage, kept);
    forall n | n in s'.owner
      ensures OwnerOk(s', n)
    {
      assert OwnerOk(s, n);
    }
  }

  lemma TemporaryOwnStep(s: State, w: WriterId, act: Action)
    requires w in s.writers ==> TemporaryOk(s, w)
    requires EnabledWriter(s, w, act)
    ensures w in ApplyWriter(s, w, act).writers && TemporaryOk(ApplyWriter(s, w, act), w)
  {
  }

  lemma TemporaryOtherStep(s: State, w: WriterId, act: Action, v: WriterId)
    requires NamesOwned(s) && EnabledWriter(s, w, act) && v != w && v in s.writers && TemporaryOk(s, v)
    ensures v in ApplyWriter(s, w, act).writers && TemporaryOk(ApplyWriter(s, w, act), v)
  {
    OthersStay(s, w, act);
    if NonceOf(s.writers[v].phase).Some? {
      NameStays(s, w, act, v, NonceOf(s.writers[v].phase).value);
      SameTemporary(s, ApplyWriter(s, w, act), v);
    }
  }

  /** Nobody else's step takes the name of a writer out of the directory, or puts it back. */
  lemma NameStays(s: State, w: WriterId, act: Action, v: WriterId, n: nat)
    requires NamesOwned(s) && EnabledWriter(s, w, act) && v != w && v in s.writers
    requires NonceOf(s.writers[v].phase) == Some(n)
    ensures Temporary(n) in s.entries <==> Temporary(n) in ApplyWriter(s, w, act).entries
  {
    EntriesStep(s, w, act, n);
    assert n in s.owner && s.owner[n] == v;
    NameStep(s, w, act);
  }

  lemma SameTemporary(s: State, s': State, v: WriterId)
    requires v in s.writers && v in s'.writers && s'.writers[v] == s.writers[v] && s'.crashed == s.crashed
    requires NonceOf(s.writers[v].phase).Some? ==>
               var n := NonceOf(s.writers[v].phase).value;
               Temporary(n) in s.entries <==> Temporary(n) in s'.entries
    requires TemporaryOk(s, v)
    ensures TemporaryOk(s', v)
  {
  }

  lemma TemporaryCrash(s: State, survivor: nat, garbage: map<Inode, Bytes>, kept: set<Name>, w: WriterId)
    requires s.settled <= survivor < |s.history| && w in s.writers && TemporaryOk(s, w)
    ensures TemporaryOk(ApplyCrash(s, survivor, garbage, kept), w)
  {
  }

  lemma AuthorsStep(s: State, w: WriterId, act: Action)
    requires AuthorsKnown(s) && EnabledWriter(s, w, act)
    ensures AuthorsKnown(ApplyWriter(s, w, act))
  {
  }

  /** A file once at the destination is written by nobody any more. */
  lemma WholeFileStep(s: State, w: WriterId, act: Action, inode: Inode)
    requires w in s.writers ==> WriterOk(s, w)
    requires EnabledWriter(s, w, act) && WholeFile(s, inode) && Some(inode) in s.history
    ensures WholeFile(ApplyWriter(s, w, act), inode)
  {
  }

  lemma HistoryStep(s: State, w: WriterId, act: Action)
    requires HistoryOk(s) && (w in s.writers ==> WriterOk(s, w)) && EnabledWriter(s, w, act)
    ensures HistoryOk(ApplyWriter(s, w, act))
  {
    var s' := ApplyWriter(s, w, act);
    if act.Rename? {
      RenameHistory(s, w);
    } else {
      HistoryStays(s, w, act);
      forall i | 0 <= i < |s.history| && s.history[i].Some?
        ensures WholeFile(s', s.history[i].value)
      {
        WholeFileStep(s, w, act, s.history[i].value);
      }
      SameHistory(s, s');
    }
  }

  lemma HistoryStays(s: State, w: WriterId, act: Action)
    requires EnabledWriter(s, w, act) && !act.Rename? && HistoryOk(s)
    ensures var s' := ApplyWriter(s, w, act);
            && s'.history == s.history && (s'.settled == s.settled || s'.settled == |s.history| - 1)
            && s'.original == s.original && s.author.Keys <= s'.author.Keys
            && (s.history[0].Some? && s.history[0].value in s'.author ==>
                  s.history[0].value in s.author || s.history[0].value !in s.files)
            && (Destination in s'.entries <==> Destination in s.entries)
            && (Destination in s.entries ==> s'.entries[Destination] == s.entries[Destination])
  {
  }

  lemma SameHistory(s: State, s': State)
    requires HistoryOk(s) && s'.history == s.history && s'.settled < |s.history| && s'.original == s.original
    requires s.author.Keys <= s'.author.Keys
    requires s.history[0].Some? && s.history[0].value in s'.author ==>
               s.history[0].value in s.author || s.history[0].value !in s.files
    requires Destination in s'.entries <==> Destination in s.entries
    requires Destination in s.entries ==> s'.entries[Destination] == s.entries[Destination]
    requires forall i :: 0 <= i < |s.history| && s.history[i].Some? ==> WholeFile(s', s.history[i].value)
    ensures HistoryOk(s')
  {
    assert s.history[0].Some? ==> WholeFile(s, s.history[0].value);
  }

  lemma RenameHistory(s: State, w: WriterId)
    requires HistoryOk(s) && EnabledWriter(s, w, Rename) && WriterOk(s, w)
    ensures HistoryOk(ApplyWriter(s, w, Rename))
  {
    var s' := ApplyWriter(s, w, Rename);
    forall i | 0 <= i < |s'.history| && s'.history[i].Some?
      ensures WholeFile(s', s'.history[i].value)
    {
      if i < |s.history| {
        assert WholeFile(s, s.history[i].value);
      }
    }
  }

  lemma HistoryCrash(s: State, survivor: nat, garbage: map<Inode, Bytes>, kept: set<Name>)
    requires HistoryOk(s) && s.settled <= survivor < |s.history|
    ensures HistoryOk(ApplyCrash(s, survivor, garbage, kept))
  {
    var s' := ApplyCrash(s, survivor, garbage, kept);
    forall i | 0 <= i < |s'.history| && s'.history[i].Some?
      ensures WholeFile(s', s'.history[i].value)
    {
      assert WholeFile(s, s.history[i].value);
    }
  }

  /** Nobody else touches the file of a writer that has not renamed it yet. */
  lemma PrivateFileStays(s: State, w: WriterId, act: Action, v: WriterId, nonce: nat, inode: Inode)
    requires Inv(s) && EnabledWriter(s, w, act) && v != w && v in s.writers
    requires PrivateFile(s, v, nonce, inode) && NonceOf(s.writers[v].phase) == Some(nonce)
    ensures PrivateFile(ApplyWriter(s, w, act), v, nonce, inode)
    ensures ApplyWriter(s, w, act).files[inode] == s.files[inode]
  {
    assert nonce in s.owner && s.owner[nonce] == v;
    assert w in s.writers ==> WriterOk(s, w);
  }

  lemma OtherWriterStep(s: State, w: WriterId, act: Action, v: WriterId)
    requires Inv(s) && EnabledWriter(s, w, act) && v != w && v in s.writers
    ensures v in ApplyWriter(s, w, act).writers && WriterOk(ApplyWriter(s, w, act), v)
  {
    assert WriterOk(s, v);
    OthersStay(s, w, act);
    var phase := s.writers[v].phase;
    if phase.Filling? || phase.Synced? {
      PrivateFileStays(s, w, act, v, phase.nonce, phase.inode);
    } else if phase.Renamed? || phase.Succeeded? {
      PlaceStays(s, w, act, phase.at, v);
    }
  }

  /** A place in the history, and whose it is, never changes. */
  lemma PlaceStays(s: State, w: WriterId, act: Action, at: nat, v: WriterId)
    requires Inv(s) && EnabledWriter(s, w, act) && at < |s.history|
    requires s.history[at].Some? && s.history[at].value in s.author && s.author[s.history[at].value] == v
    ensures var s' := ApplyWriter(s, w, act);
            && at < |s'.history| && s'.history[at] == s.history[at] && s.settled <= s'.settled
            && s.history[at].value in s'.author && s'.author[s.history[at].value] == v
  {
    assert WholeFile(s, s.history[at].value);
  }

  lemma OwnStep(s: State, w: WriterId, act: Action)
    requires Inv(s) && EnabledWriter(s, w, act)
    ensures w in ApplyWriter(s, w, act).writers && WriterOk(ApplyWriter(s, w, act), w)
  {
    assert w in s.writers ==> WriterOk(s, w);
  }

  lemma CrashStep(s: State, survivor: nat, garbage: map<Inode, Bytes>, kept: set<Name>, w: WriterId)
    requires Inv(s) && s.settled <= survivor < |s.history| && w in s.writers
    ensures WriterOk(ApplyCrash(s, survivor, garbage, kept), w)
  {
    assert WriterOk(s, w);
  }

  lemma WriterStepInv(s: State, w: WriterId, act: Action)
    requires Inv(s) && EnabledWriter(s, w, act)
    ensures Inv(ApplyWriter(s, w, act))
  {
    var s' := ApplyWriter(s, w, act);
    assert w in s.writers ==> WriterOk(s, w) && TemporaryOk(s, w);
    NamesStep(s, w, act);
    AuthorsStep(s, w, act);
    HistoryStep(s, w, act);
    OthersStay(s, w, act);
    forall v | v in s'.writers
      ensures WriterOk(s', v) && TemporaryOk(s', v)
    {
      if v == w {
        OwnStep(s, w, act);
        TemporaryOwnStep(s, w, act);
      } else {
        OtherWriterStep(s, w, act, v);
        TemporaryOtherStep(s, w, act, v);
      }
    }
  }

  lemma CrashInv(s: State, survivor: nat, garbage: map<Inode, Bytes>, kept: set<Name>)
    requires Inv(s) && s.settled <= survivor < |s.history|
    ensures Inv(ApplyCrash(s, survivor, garbage, kept))
  {
    var s' := ApplyCrash(s, survivor, garbage, kept);
    NamesCrash(s, survivor, garbage, kept);
    HistoryCrash(s, survivor, garbage, kept);
    forall w | w in s'.writers
      ensures WriterOk(s', w) && TemporaryOk(s', w)
    {
      CrashStep(s, survivor, garbage, kept, w);
      TemporaryCrash(s, survivor, garbage, kept, w);
    }
    AuthorsCrash(s, survivor, garbage, kept);
  }

  lemma AuthorsCrash(s: State, survivor: nat, garbage: map<Inode, Bytes>, kept: set<Name>)
    requires AuthorsKnown(s) && HistoryOk(s) && s.settled <= survivor < |s.history|
    ensures AuthorsKnown(ApplyCrash(s, survivor, garbage, kept))
  {
    assert s.history[survivor].Some? ==> WholeFile(s, s.history[survivor].value);
  }

  lemma StepInv(s: State, step: Step)
    requires Inv(s) && Enabled(s, step)
    ensures Inv(Apply(s, step))
  {
    match step
    case WriterStep(w, act) => WriterStepInv(s, w, act);
    case Crash(survivor, garbage, kept) => CrashInv(s, survivor, garbage, kept);
  }

  lemma NextInv(s: State, s': State)
    requires Inv(s) && Next(s, s')
    ensures Inv(s')
  {
    var step :| Enabled(s, step) && s' == Apply(s, step);
    StepInv(s, step);
  }

  lemma {:induction false} RunInv(run: seq<State>)
    requires IsRun(run)
    ensures Inv(run[|run| - 1])
    decreases |run|
  {
    if |run| == 1 {
      InitialInv(run[0]);
    } else {
      RunInv(run[..|run| - 1]);
      NextInv(run[|run| - 2], run[|run| - 1]);
    }
  }

  lemma ReachableInv(s: State)
    requires Reachable(s)
    ensures Inv(s)
  {
    var run :| IsRun(run) && run[|run| - 1] == s;
    RunInv(run);
  }

  lemma ReachableStep(s: State, step: Step)
    requires Reachable(s) && Enabled(s, step)
    ensures Reachable(Apply(s, step))
  {
    var run :| IsRun(run) && run[|run| - 1] == s;
    var longer := run + [Apply(s, step)];
    assert Next(longer[|run| - 1], longer[|run|]);
    forall i | 0 < i < |longer|
      ensures Next(longer[i - 1], longer[i])
    {
      if i < |run| {
        assert Next(run[i - 1], run[i]);
      }
    }
    assert IsRun(longer) && longer[|longer| - 1] == Apply(s, step);
  }

  // ---------------------------------------------------------------- what a reader or a crash can see

  function Contents(s: State): Option<Bytes> {
    if Destination in s.entries && s.entries[Destination] in s.files
    then Some(s.files[s.entries[Destination]].content) else None
  }

  /** The destination is as it was at the start, or holds the complete bytes of one writer. */
  ghost predicate OldOrWhole(s: State, contents: Option<Bytes>) {
    contents == s.original || exists w :: w in s.writers && contents == Some(s.writers[w].bytes)
  }

  /** In every reachable state, so for every reader, and after any number of crashes at any step. */
  lemma DestinationIsOldOrWhole(s: State)
    requires Reachable(s)
    ensures OldOrWhole(s, Contents(s))
  {
    ReachableInv(s);
    var last := s.history[|s.history| - 1];
    if last.Some? {
      assert WholeFile(s, last.value);
    } else {
      assert |s.history| == 1;
    }
  }

  /** Whatever the disk looks like after a crash, the destination recovers to the original contents or to
  one writer's complete bytes, and never to something older than the last synced directory state. */
  lemma CrashRecovers(s: State, survivor: nat, garbage: map<Inode, Bytes>, kept: set<Name>)
    requires Reachable(s) && Enabled(s, Crash(survivor, garbage, kept))
    ensures var s' := Apply(s, Crash(survivor, garbage, kept));
            && Reachable(s') && OldOrWhole(s, Contents(s'))
            && s.settled <= survivor
            && (s.history[survivor].Some? ==>
                  && s.history[survivor].value in s.files
                  && Contents(s') == Some(s.files[s.history[survivor].value].content))
  {
    var s' := Apply(s, Crash(survivor, garbage, kept));
    ReachableStep(s, Crash(survivor, garbage, kept));
    DestinationIsOldOrWhole(s');
    ReachableInv(s);
    if s.history[survivor].Some? {
      assert WholeFile(s, s.history[survivor].value);
    }
    if Contents(s') != s'.original {
      var w :| w in s'.writers && Contents(s') == Some(s'.writers[w].bytes);
      assert w in s.writers && s.writers[w].bytes == s'.writers[w].bytes;
    }
  }

  /** A writer told Ok has its rename on disk for good: the destination holds its bytes, or the complete
  bytes of a writer that renamed after it, in every later state and after every crash. */
  lemma OkIsDurable(s: State, w: WriterId)
    requires Reachable(s) && w in s.writers && s.writers[w].phase.Succeeded?
    ensures s.writers[w].phase.at <= s.settled < |s.history|
    ensures var last := s.history[|s.history| - 1];
            && last.Some? && last.value in s.author && s.author[last.value] in s.writers
            && Contents(s) == Some(s.writers[s.author[last.value]].bytes)
            && (|s.history| - 1 == s.writers[w].phase.at ==> s.author[last.value] == w)
  {
    ReachableInv(s);
    assert WriterOk(s, w);
    assert WholeFile(s, s.history[|s.history| - 1].value);
  }

  /** With a single writer, Ok means its bytes are what every reader and every recovery sees. */
  lemma SingleWriterOk(s: State, w: WriterId, survivor: nat, garbage: map<Inode, Bytes>, kept: set<Name>)
    requires Reachable(s) && s.writers.Keys == {w} && s.writers[w].phase.Succeeded?
    requires Enabled(s, Crash(survivor, garbage, kept))
    ensures Contents(s) == Some(s.writers[w].bytes)
    ensures Contents(Apply(s, Crash(survivor, garbage, kept))) == Some(s.writers[w].bytes)
  {
    OkIsDurable(s, w);
    var s' := Apply(s, Crash(survivor, garbage, kept));
    ReachableStep(s, Crash(survivor, garbage, kept));
    assert s'.writers.Keys == {w};
    OkIsDurable(s', w);
  }

  /** A success is never taken back, and the position of its rename never moves. */
  lemma SuccessStays(s: State, step: Step, w: WriterId)
    requires Reachable(s) && Enabled(s, step) && w in s.writers && s.writers[w].phase.Succeeded?
    ensures var s' := Apply(s, step);
            && w in s'.writers && s'.writers[w] == s.writers[w]
            && s.writers[w].phase.at < |s.history| && s.writers[w].phase.at < |s'.history|
            && s'.history[s.writers[w].phase.at] == s.history[s.writers[w].phase.at]
  {
    ReachableInv(s);
    assert WriterOk(s, w);
    match step
    case Crash(_, _, _) =>
    case WriterStep(v, act) =>
      OthersStay(s, v, act);
      PlaceStays(s, v, act, s.writers[w].phase.at, w);
  }

  // ---------------------------------------------------------------- what is left in the directory

  /** A temporary made by this writer is in the directory. */
  ghost predicate LeftBehind(s: State, w: WriterId) {
    exists n :: n in s.owner && s.owner[n] == w && Temporary(n) in s.entries
  }

  lemma OnlyOwnName(s: State, w: WriterId)
    requires Inv(s) && w in s.writers && !s.writers[w].phase.Dead?
    ensures LeftBehind(s, w) <==> NonceOf(s.writers[w].phase).Some?
                                  && Temporary(NonceOf(s.writers[w].phase).value) in s.entries
  {
    forall n | n in s.owner && s.owner[n] == w
      ensures NonceOf(s.writers[w].phase) == Some(n)
    {
      assert OwnerOk(s, n);
    }
  }

  /** Without a crash a failed write leaves its temporary behind exactly when the new file did not pass
  validation, or its removal failed before the rename had used the name up. */
  lemma TemporaryRemainsIff(s: State, w: WriterId)
    requires Reachable(s) && w in s.writers && s.writers[w].phase.Failed?
    ensures var ending := s.writers[w].phase.ending;
            && (LeftBehind(s, w) ==> ending.NotValid? || (ending.RemovalFailed? && !ending.renamed))
            && (!s.crashed && (ending.NotValid? || (ending.RemovalFailed? && !ending.renamed)) ==> LeftBehind(s, w))
  {
    ReachableInv(s);
    OnlyOwnName(s, w);
    assert TemporaryOk(s, w);
  }

  /** A write told Ok leaves none. */
  lemma SuccessLeavesNothing(s: State, w: WriterId)
    requires Reachable(s) && w in s.writers && s.writers[w].phase.Succeeded?
    ensures !LeftBehind(s, w)
  {
    ReachableInv(s);
    OnlyOwnName(s, w);
    assert TemporaryOk(s, w);
  }

  /** A first state with one writer whose temporary has just been made. */
  lemma TemporaryMade(s: State, w: WriterId, bytes: Bytes, nonce: nat, inode: Inode) returns (made: State)
    requires Initial(s) && inode !in s.files
    ensures Reachable(made) && !made.crashed && Contents(made) == Contents(s)
    ensures w in made.writers && made.writers[w] == Writer(bytes, Filling(nonce, inode))
    ensures nonce in made.owner && made.owner[nonce] == w && Temporary(nonce) in made.entries
  {
    assert IsRun([s]) && [s][|[s]| - 1] == s;
    ReachableStep(s, WriterStep(w, Begin(bytes)));
    var begun := Apply(s, WriterStep(w, Begin(bytes)));
    assert Temporary(nonce) !in s.entries.Keys;
    ReachableStep(begun, WriterStep(w, CreateTemporary(nonce, inode)));
    made := Apply(begun, WriterStep(w, CreateTemporary(nonce, inode)));
  }

  /** The first leftover: a write whose new file does not pass validation fails with its temporary still there
  and the destination as it was. */
  lemma InvalidTemporaryRemains(s: State, w: WriterId, bytes: Bytes, nonce: nat, inode: Inode) returns (left: State)
    requires Initial(s) && inode !in s.files
    ensures Reachable(left) && !left.crashed && LeftBehind(left, w) && Contents(left) == Contents(s)
    ensures w in left.writers && left.writers[w] == Writer(bytes, Failed(NotValid(nonce)))
  {
    var made := TemporaryMade(s, w, bytes, nonce, inode);
    ReachableStep(made, WriterStep(w, LeaveTemporary));
    left := Apply(made, WriterStep(w, LeaveTemporary));
    assert nonce in left.owner && left.owner[nonce] == w && Temporary(nonce) in left.entries;
  }

  /** The second: a write that fails and then cannot remove its temporary, which nobody reports. */
  lemma UnremovedTemporaryRemains(s: State, w: WriterId, bytes: Bytes, nonce: nat, inode: Inode) returns (left: State)
    requires Initial(s) && inode !in s.files
    ensures Reachable(left) && !left.crashed && LeftBehind(left, w) && Contents(left) == Contents(s)
    ensures w in left.writers && left.writers[w] == Writer(bytes, Failed(RemovalFailed(nonce, false)))
  {
    var made := TemporaryMade(s, w, bytes, nonce, inode);
    ReachableStep(made, WriterStep(w, Fail));
    var failed := Apply(made, WriterStep(w, Fail));
    ReachableStep(failed, WriterStep(w, RemovalFails));
    left := Apply(failed, WriterStep(w, RemovalFails));
    assert nonce in left.owner && left.owner[nonce] == w && Temporary(nonce) in left.entries;
  }

  // ---------------------------------------------------------------- the code of one writer

  predicate Concerns(step: Step, w: WriterId) {
    step.Crash? || step.w == w
  }

  /** What no other writer can change for writer `w`. */
  ghost predicate Undisturbed(s: State, s': State, w: WriterId) {
    && w in s.writers && w in s'.writers && s'.writers[w] == s.writers[w]
    && s'.crashed == s.crashed
    && (s.writers[w].phase.Filling? || s.writers[w].phase.Synced? ==>
          var inode := s.writers[w].phase.inode;
          inode in s.files && inode in s'.files && s'.files[inode] == s.files[inode])
    && (NonceOf(s.writers[w].phase).Some? ==>
          var n := NonceOf(s.writers[w].phase).value;
          Temporary(n) in s.entries <==> Temporary(n) in s'.entries)
  }

  lemma OthersStep(s: State, v: WriterId, act: Action, w: WriterId)
    requires Reachable(s) && w in s.writers && v != w && EnabledWriter(s, v, act)
    ensures Undisturbed(s, ApplyWriter(s, v, act), w)
  {
    ReachableInv(s);
    assert WriterOk(s, w);
    OthersStay(s, v, act);
    var phase := s.writers[w].phase;
    if phase.Filling? || phase.Synced? {
      PrivateFileStays(s, v, act, w, phase.nonce, phase.inode);
    }
    if NonceOf(phase).Some? {
      NameStays(s, v, act, w, NonceOf(phase).value);
    }
  }

  ghost predicate OthersNext(s: State, s': State, w: WriterId) {
    w in s.writers && exists step :: Enabled(s, step) && !Concerns(step, w) && s' == Apply(s, step)
  }

  lemma OthersOnce(s: State, s': State, w: WriterId)
    requires Reachable(s) && OthersNext(s, s', w)
    ensures Reachable(s') && Undisturbed(s, s', w)
  {
    var step :| Enabled(s, step) && !Concerns(step, w) && s' == Apply(s, step);
    OthersStep(s, step.w, step.act, w);
    ReachableStep(s, step);
  }

  lemma UndisturbedTwice(s: State, s': State, s'': State, w: WriterId)
    requires Undisturbed(s, s', w) && Undisturbed(s', s'', w)
    ensures Undisturbed(s, s'', w)
  {
  }

  lemma UndisturbedByNothing(s: State, w: WriterId)
    requires Reachable(s) && w in s.writers
    ensures Undisturbed(s, s, w)
  {
    ReachableInv(s);
    assert WriterOk(s, w);
  }

  /** The rely condition of `Machine.Interfere` holds of every run of the other writers. */
  lemma {:induction false} OthersDoNotDisturb(run: seq<State>, w: WriterId)
    requires |run| > 0 && forall i :: 0 < i < |run| ==> OthersNext(run[i - 1], run[i], w)
    requires Reachable(run[0]) && w in run[0].writers
    ensures Reachable(run[|run| - 1]) && Undisturbed(run[0], run[|run| - 1], w)
    decreases |run|
  {
    if |run| == 1 {
      UndisturbedByNothing(run[0], w);
    } else {
      OthersDoNotDisturb(run[..|run| - 1], w);
      OthersOnce(run[|run| - 2], run[|run| - 1], w);
      UndisturbedTwice(run[0], run[|run| - 2], run[|run| - 1], w);
    }
  }

  lemma ReachableTemporary(s: State, w: WriterId)
    requires Reachable(s) && w in s.writers
    ensures TemporaryOk(s, w) && |s.history| > 0
  {
    ReachableInv(s);
  }

  lemma ReachableWriter(s: State, w: WriterId)
    requires Reachable(s) && w in s.writers
    ensures WriterOk(s, w) && |s.history| > 0
  {
    ReachableInv(s);
  }

  /** The two ends of a cleanup. */
  lemma CleanupEnds(s: State, w: WriterId, act: Action)
    requires EnabledWriter(s, w, act) && (act.RemoveTemporary? || act.RemovalFails?) && TemporaryOk(s, w)
    ensures var n, s' := s.writers[w].phase.nonce, ApplyWriter(s, w, act);
            && w in s'.writers && s'.writers[w].bytes == s.writers[w].bytes && s'.crashed == s.crashed
            && s'.writers[w].phase.Failed? && !s'.writers[w].phase.ending.NotValid?
            && (Temporary(n) in s'.entries <==> s'.writers[w].phase == Failed(RemovalFailed(n, false)))
  {
  }

  datatype Creation = Created | NotValidated | OpenFailed | NamesExhausted

  class Machine {
    var state: State
    /** The calls of this writer. */
    ghost var run: FileTrace.Run

    ghost predicate Runs(w: WriterId)
      reads this`state
    {
      Reachable(state) && w in state.writers
    }

    method Perform(step: Step)
      requires Reachable(state) && Enabled(state, step)
      modifies this`state
      ensures state == Apply(old(state), step) && Reachable(state)
    {
      ReachableStep(state, step);
      state := Apply(state, step);
    }

    method Interfere(w: WriterId)
      requires Runs(w)
      modifies this`state
      ensures Runs(w) && Undisturbed(old(state), state, w)
    {
      ReachableWriter(state, w);
    }

    // ------------------------------------------------------------ the record of the calls

    ghost function Last(): FileTrace.Event
      requires run != []
      reads this`run
    {
      run[|run| - 1]
    }

    /** The last call was this one, with this answer. */
    ghost predicate After(call: FileTrace.Call, answer: FileTrace.Answer)
      reads this`run
    {
      run != [] && Last() == FileTrace.Asked(call, answer)
    }

    /** The contents may be written, or synced. */
    ghost predicate MayWrite()
      reads this`run
    {
      After(FileTrace.Validate, FileTrace.Done) || After(FileTrace.WriteData, FileTrace.Done)
    }

    /** Something failed after the temporary was made and found valid. */
    ghost predicate FailedLate()
      reads this`run
    {
      run != [] && FileTrace.Begun(Last().call) && Last().answer.Refused?
    }

    method Note(ghost call: FileTrace.Call, ghost answer: FileTrace.Answer)
      requires FileTrace.MayCome(run, call) && (answer.Exists? ==> call.Create?)
      modifies this`run
      ensures run == old(run) + [FileTrace.Asked(call, answer)]
    {
      run := FileTrace.Longer(run, FileTrace.Asked(call, answer));
    }

    /** A call whose answer the model does not determine. */
    method Ask(call: FileTrace.Call) returns (ok: bool)
      requires FileTrace.MayCome(run, call)
      modifies this`run
      ensures run == old(run) + [FileTrace.Asked(call, if ok then FileTrace.Done else FileTrace.Refused)]
    {
      ok := *;
      Note(call, if ok then FileTrace.Done else FileTrace.Refused);
    }

    // ------------------------------------------------------------ the code

    /** Up to 32 names are tried; only an existing name is tried again. A new file that does not pass
    validation ends the write and is left where it is. */
    method CreateTemporaryFile(w: WriterId) returns (r: Creation)
      requires Runs(w) && state.writers[w].phase.Started? && |run| == 1
      requires After(FileTrace.Prepare, FileTrace.Done)
      modifies this
      ensures Runs(w) && state.writers[w].bytes == old(state.writers[w].bytes) && state.crashed == old(state.crashed)
      ensures r.Created? ==> state.writers[w].phase.Filling? && After(FileTrace.Validate, FileTrace.Done)
      ensures r.NotValidated? ==>
                && state.writers[w].phase.Failed? && state.writers[w].phase.ending.NotValid?
                && Temporary(state.writers[w].phase.ending.nonce) in state.entries
                && FileTrace.VerdictOf(run).LeftInvalid?
      ensures r.OpenFailed? || r.NamesExhausted? ==>
                state.writers[w].phase.Started? && FileTrace.VerdictOf(run).NoTemporary?
      ensures r.NamesExhausted? <==> After(FileTrace.Create, FileTrace.Exists)
    {
      for attempt := 0 to 32
        invariant Runs(w) && state.writers[w] == old(state.writers[w]) && state.crashed == old(state.crashed)
        invariant |run| == attempt + 1 && (attempt < 32 ==> FileTrace.MayCome(run, FileTrace.Create))
        invariant attempt > 0 ==> After(FileTrace.Create, FileTrace.Exists)
      {
        Interfere(w);
        var answer := TryName(w);
        if answer.Refused? {
          return OpenFailed;
        }
        if answer.Done? {
          r := ValidateTemporary(w);
          return;
        }
      }
      r := NamesExhausted;
    }

    /** One new name: taken, refused, or opened as a new file. */
    method TryName(w: WriterId) returns (answer: FileTrace.Answer)
      requires Runs(w) && state.writers[w].phase.Started? && FileTrace.MayCome(run, FileTrace.Create)
      modifies this
      ensures Runs(w) && state.writers[w].bytes == old(state.writers[w].bytes) && state.crashed == old(state.crashed)
      ensures run == old(run) + [FileTrace.Asked(FileTrace.Create, answer)]
      ensures if answer.Done? then state.writers[w].phase.Filling? else state == old(state)
    {
      var nonce: nat := *;
      var inode: Inode := *;
      var accepted: bool := *;
      if Temporary(nonce) in state.entries {
        answer := FileTrace.Exists;
      } else if accepted && Enabled(state, WriterStep(w, CreateTemporary(nonce, inode))) {
        Perform(WriterStep(w, CreateTemporary(nonce, inode)));
        answer := FileTrace.Done;
      } else {
        answer := FileTrace.Refused;
      }
      Note(FileTrace.Create, answer);
    }

    method ValidateTemporary(w: WriterId) returns (r: Creation)
      requires Runs(w) && state.writers[w].phase.Filling? && After(FileTrace.Create, FileTrace.Done)
      modifies this
      ensures Runs(w) && state.writers[w].bytes == old(state.writers[w].bytes) && state.crashed == old(state.crashed)
      ensures r.Created? || r.NotValidated?
      ensures r.Created? ==> state.writers[w].phase.Filling? && After(FileTrace.Validate, FileTrace.Done)
      ensures r.NotValidated? ==>
                && state.writers[w].phase.Failed? && state.writers[w].phase.ending.NotValid?
                && Temporary(state.writers[w].phase.ending.nonce) in state.entries
                && FileTrace.VerdictOf(run).LeftInvalid?
    {
      ReachableTemporary(state, w);
      var valid := Ask(FileTrace.Validate);
      if !valid {
        Perform(WriterStep(w, LeaveTemporary));
        return NotValidated;
      }
      return Created;
    }

    /** `write_all` in any pieces, then `sync_all`. */
    method WriteAndSync(w: WriterId) returns (synced: bool)
      requires Runs(w) && state.writers[w].phase.Filling? && After(FileTrace.Validate, FileTrace.Done)
      modifies this
      ensures Runs(w) && state.writers[w].bytes == old(state.writers[w].bytes) && state.crashed == old(state.crashed)
      ensures NonceOf(state.writers[w].phase) == old(NonceOf(state.writers[w].phase))
      ensures if synced then state.writers[w].phase.Synced? && After(FileTrace.SyncData, FileTrace.Done)
              else state.writers[w].phase.Filling? && FailedLate()
    {
      ReachableWriter(state, w);
      ghost var inode := state.writers[w].phase.inode;
      while |state.files[state.writers[w].phase.inode].content| < |state.writers[w].bytes|
        invariant Runs(w) && state.writers[w] == old(state.writers[w]) && MayWrite()
        invariant inode in state.files && state.files[inode].content <= state.writers[w].bytes
        invariant state.crashed == old(state.crashed)
        decreases |state.writers[w].bytes| - |state.files[state.writers[w].phase.inode].content|
      {
        Interfere(w);
        var written := WritePiece(w);
        if !written {
          return false;
        }
      }
      Interfere(w);
      synced := Ask(FileTrace.SyncData);
      if synced {
        Perform(WriterStep(w, SyncFile));
      }
    }

    /** One write: at least one byte, or a failure. */
    method WritePiece(w: WriterId) returns (written: bool)
      requires Runs(w) && state.writers[w].phase.Filling? && MayWrite()
      requires state.writers[w].phase.inode in state.files
      requires state.files[state.writers[w].phase.inode].content < state.writers[w].bytes
      modifies this
      ensures Runs(w) && state.writers[w] == old(state.writers[w]) && state.crashed == old(state.crashed)
      ensures var inode := state.writers[w].phase.inode;
              && inode in state.files && state.files[inode].content <= state.writers[w].bytes
              && (written ==> |state.files[inode].content| > |old(state.files[inode].content)|)
      ensures After(FileTrace.WriteData, if written then FileTrace.Done else FileTrace.Refused)
    {
      var count: int := *;
      written := count > 0 && Enabled(state, WriterStep(w, WriteSome(count)));
      Note(FileTrace.WriteData, if written then FileTrace.Done else FileTrace.Refused);
      if written {
        Perform(WriterStep(w, WriteSome(count)));
      }
    }

    /** Ok only after the directory sync, and exactly then. A failure leaves a temporary behind exactly as its ending
    says, and the ending is what the last call calls for. */
    method WriteAtomic(w: WriterId) returns (ok: bool)
      requires Runs(w) && state.writers[w].phase.Started? && run == []
      modifies this
      ensures Runs(w) && state.writers[w].bytes == old(state.writers[w].bytes) && state.crashed == old(state.crashed)
      ensures if ok then state.writers[w].phase.Succeeded? && !LeftBehind(state, w) else state.writers[w].phase.Failed?
      ensures !ok && !state.crashed ==>
                var ending := state.writers[w].phase.ending;
                LeftBehind(state, w) <==> ending.NotValid? || (ending.RemovalFailed? && !ending.renamed)
      ensures OldOrWhole(state, Contents(state))
      ensures VerdictFits(FileTrace.VerdictOf(run), state.writers[w].phase)
    {
      ok := false;
      var parentReady := Ask(FileTrace.Prepare);
      if !parentReady {
        Perform(WriterStep(w, Refuse));
      } else {
        ok := CreateAndReplace(w);
      }
      DestinationIsOldOrWhole(state);
      if ok {
        SuccessLeavesNothing(state, w);
      } else {
        TemporaryRemainsIff(state, w);
      }
    }

    method CreateAndReplace(w: WriterId) returns (ok: bool)
      requires Runs(w) && state.writers[w].phase.Started? && |run| == 1
      requires After(FileTrace.Prepare, FileTrace.Done)
      modifies this
      ensures Runs(w) && state.writers[w].bytes == old(state.writers[w].bytes) && state.crashed == old(state.crashed)
      ensures if ok then state.writers[w].phase.Succeeded? else state.writers[w].phase.Failed?
      ensures VerdictFits(FileTrace.VerdictOf(run), state.writers[w].phase)
    {
      var creation := CreateTemporaryFile(w);
      ok := false;
      if creation.Created? {
        ok := Replace(w);
      } else if !creation.NotValidated? {
        Perform(WriterStep(w, Refuse));
      }
    }

    /** On success the name was used up by the rename; on a failure it is removed, unless that fails. */
    method Replace(w: WriterId) returns (ok: bool)
      requires Runs(w) && state.writers[w].phase.Filling? && After(FileTrace.Validate, FileTrace.Done)
      modifies this
      ensures Runs(w) && state.writers[w].bytes == old(state.writers[w].bytes) && state.crashed == old(state.crashed)
      ensures if ok then state.writers[w].phase.Succeeded?
              else state.writers[w].phase.Failed? && !state.writers[w].phase.ending.NotValid?
      ensures Temporary(old(state.writers[w].phase.nonce)) in state.entries <==>
                state.writers[w].phase == Failed(RemovalFailed(old(state.writers[w].phase.nonce), false))
      ensures VerdictFits(FileTrace.VerdictOf(run), state.writers[w].phase)
    {
      var synced := WriteAndSync(w);
      ok := false;
      if synced {
        Interfere(w);
        ok := RenameAndSettle(w);
      }
      if ok {
        ReachableTemporary(state, w);
      } else {
        Perform(WriterStep(w, Fail));
        Interfere(w);
        Abandon(w);
      }
    }

    method RenameAndSettle(w: WriterId) returns (ok: bool)
      requires Runs(w) && state.writers[w].phase.Synced? && After(FileTrace.SyncData, FileTrace.Done)
      modifies this
      ensures Runs(w) && state.writers[w].bytes == old(state.writers[w].bytes) && state.crashed == old(state.crashed)
      ensures NonceOf(state.writers[w].phase) == old(NonceOf(state.writers[w].phase))
      ensures if ok then state.writers[w].phase.Succeeded? && After(FileTrace.SyncParent, FileTrace.Done)
              else (state.writers[w].phase.Synced? || state.writers[w].phase.Renamed?) && FailedLate()
    {
      var renamed := Ask(FileTrace.Replace);
      if !renamed {
        return false;
      }
      RenameStep(w);
      Interfere(w);
      ok := Settle();
      if ok {
        SyncStep(w);
      }
    }

    method RenameStep(w: WriterId)
      requires Runs(w) && state.writers[w].phase.Synced?
      modifies this`state
      ensures Runs(w) && state.writers[w].bytes == old(state.writers[w].bytes) && state.crashed == old(state.crashed)
      ensures state.writers[w].phase.Renamed?
      ensures NonceOf(state.writers[w].phase) == old(NonceOf(state.writers[w].phase))
    {
      ReachableTemporary(state, w);
      Perform(WriterStep(w, Rename));
    }

    method SyncStep(w: WriterId)
      requires Runs(w) && state.writers[w].phase.Renamed?
      modifies this`state
      ensures Runs(w) && state.writers[w].bytes == old(state.writers[w].bytes) && state.crashed == old(state.crashed)
      ensures state.writers[w].phase.Succeeded?
      ensures NonceOf(state.writers[w].phase) == old(NonceOf(state.writers[w].phase))
    {
      ReachableWriter(state, w);
      Perform(WriterStep(w, SyncDirectory));
    }

    /** After the rename: the destination is opened and checked again, then the directory synced. */
    method Settle() returns (ok: bool)
      requires After(FileTrace.Replace, FileTrace.Done)
      modifies this`run
      ensures if ok then After(FileTrace.SyncParent, FileTrace.Done) else FailedLate()
    {
      ok := Ask(FileTrace.Reopen);
      if ok {
        ok := Ask(FileTrace.SyncParent);
      }
    }

    /** The result of the removal is ignored. */
    method Abandon(w: WriterId)
      requires Runs(w) && state.writers[w].phase.CleaningUp? && FailedLate()
      modifies this
      ensures Runs(w) && state.writers[w].bytes == old(state.writers[w].bytes) && state.crashed == old(state.crashed)
      ensures state.writers[w].phase.Failed? && !state.writers[w].phase.ending.NotValid?
      ensures Temporary(old(state.writers[w].phase.nonce)) in state.entries <==>
                state.writers[w].phase == Failed(RemovalFailed(old(state.writers[w].phase.nonce), false))
      ensures VerdictFits(FileTrace.VerdictOf(run), state.writers[w].phase)
    {
      var removed := TryRemove(w);
      EndCleanup(w, removed);
    }

    method EndCleanup(w: WriterId, removed: bool)
      requires Runs(w) && state.writers[w].phase.CleaningUp?
      requires removed ==> EnabledWriter(state, w, RemoveTemporary)
      modifies this`state
      ensures Runs(w) && state.writers[w].bytes == old(state.writers[w].bytes) && state.crashed == old(state.crashed)
      ensures state.writers[w].phase.Failed?
      ensures if removed then state.writers[w].phase.ending.Removed?
              else state.writers[w].phase.ending.RemovalFailed?
      ensures Temporary(old(state.writers[w].phase.nonce)) in state.entries <==>
                state.writers[w].phase == Failed(RemovalFailed(old(state.writers[w].phase.nonce), false))
    {
      ReachableTemporary(state, w);
      var act := if removed then RemoveTemporary else RemovalFails;
      CleanupEnds(state, w, act);
      Perform(WriterStep(w, act));
    }

    method TryRemove(w: WriterId) returns (removed: bool)
      requires w in state.writers && FailedLate()
      modifies this`run
      ensures removed ==> EnabledWriter(state, w, RemoveTemporary)
      ensures run == old(run) + [
                     FileTrace.Asked(FileTrace.Remove, if removed then FileTrace.Done else FileTrace.Refused)]
    {
      removed := *;
      removed := removed && EnabledWriter(state, w, RemoveTemporary);
      Note(FileTrace.Remove, if removed then FileTrace.Done else FileTrace.Refused);
    }
  }

  /** The phase a write ends in is what its last call calls for. */
  predicate VerdictFits(verdict: FileTrace.Verdict, phase: Phase) {
    match verdict
    case Success => phase.Succeeded?
    case NoTemporary => phase.Failed? && phase.ending.NoTemporary?
    case LeftInvalid => phase.Failed? && phase.ending.NotValid?
    case CleanedUp => phase.Failed? && phase.ending.Removed?
    case NotCleanedUp => phase.Failed? && phase.ending.RemovalFailed?
    case Unfinished => false
  }
}
