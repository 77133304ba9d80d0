/**
 Updates one after another. Each may stop anywhere; the next one starts from what it left, with a candidate and a
 plan of its own and the same backup directory.
 */
module UpdateRuns {
  import opened Wrappers
  import opened Updater

  /** One update: the candidate downloaded for it, and how many file operations happen before it is cut short. */
  datatype Update = Update(candidate: Option<Image>, options: Options, faults: Faults, power: nat)

  /** Whether an executable starts and runs. */
  type Trial = Bytes -> bool

  predicate Works(i: Option<Image>, runs: Trial) {
    i.Some? && i.value.Regular? && runs(i.value.data)
  }

  /** A health check that passes has run the candidate. */
  predicate Sound(u: Update, runs: Trial) {
    u.faults.healthy ==> Works(u.candidate, runs)
  }

  function Begin(m: Machine, u: Update): Machine {
    Machine(if u.candidate.Some? then m.files[Candidate := u.candidate.value] else m.files - {Candidate}, u.power)
  }

  function After(m: Machine, u: Update): Machine {
    Apply(Begin(m, u), u.options, u.faults).0
  }

  function AfterAll(m: Machine, us: seq<Update>): Machine {
    if us == [] then m else After(AfterAll(m, us[..|us| - 1]), us[|us| - 1])
  }

  /** There is an executable that works where the updater keeps them. */
  predicate Survives(m: Machine, runs: Trial) {
    Works(m.At(Install), runs) || Works(m.At(Previous), runs) || Works(m.At(Archive), runs)
  }

  /** What is installed works, or nothing is: an update from here risks nothing. */
  predicate Ready(m: Machine, runs: Trial) {
    Works(m.At(Install), runs) || !IsFile(m.At(Install))
  }

  // ---- From a state that is ready -------------------------------------------

  lemma BeginKeeps(m: Machine, u: Update)
    ensures forall p: Path :: p != Candidate ==> Begin(m, u).At(p) == m.At(p)
    ensures Begin(m, u).At(Candidate) == u.candidate
  {
  }

  /** Without an installed file an update refuses, and the executable's files stay as they are. */
  lemma NothingInstalledRefuses(m: Machine, o: Options, f: Faults)
    requires !IsFile(m.At(Install))
    ensures var m' := Apply(m, o, f).0;
            m'.At(Install) == m.At(Install) && m'.At(Previous) == m.At(Previous) && m'.At(Archive) == m.At(Archive)
  {
    hide TakeSnapshot, Matches, Compatible, StageUpdate, Swap;
    SnapshotStops(m, o, f);
    var taken := TakeSnapshot(m, o, f).0;
    assert taken.At(Install) == m.At(Install) && taken.At(Previous) == m.At(Previous)
           && taken.At(Archive) == m.At(Archive);
  }

  /** An update from a state that is ready loses no working executable, wherever it stops. */
  lemma ReadyUpdateSurvives(m: Machine, u: Update, runs: Trial)
    requires Survives(m, runs) && Ready(m, runs)
    ensures Survives(After(m, u), runs)
  {
    hide Apply;
    BeginKeeps(m, u);
    if Works(m.At(Install), runs) {
      UpdateNeverLosesExecutable(Begin(m, u), u.options, u.faults);
    } else {
      NothingInstalledRefuses(Begin(m, u), u.options, u.faults);
    }
  }

  // ---- What a completed update installs -------------------------------------

  lemma StagedIsCandidate(m: Machine, o: Options, f: Faults)
    ensures var (m', ok) := StageUpdate(m, o, f);
            ok && m'.power > 0 ==> m'.At(Stage) == m.At(Candidate)
  {
    hide Matches, Truncated;
  }

  lemma SwapInstalls(m: Machine, o: Options, f: Faults)
    ensures var m' := Swap(m, o, f).0;
            && m'.power <= m.power
            && (m'.power > 0 ==>
                  || m'.At(Install) in {m.At(Install), None}
                  || (f.healthy && m'.At(Install) == m.At(Stage)))
  {
    hide Matches, Truncated;
  }

  /** Unless it is cut short, an update leaves the old executable, nothing, or a candidate that passed the check. */
  lemma CompletedInstalls(m: Machine, o: Options, f: Faults)
    ensures var m' := Apply(m, o, f).0;
            m'.power > 0 ==>
              || m'.At(Install) in {m.At(Install), None}
              || (f.healthy && m'.At(Install) == m.At(Candidate))
  {
    hide TakeSnapshot, Matches, Compatible, StageUpdate, Swap;
    SnapshotStops(m, o, f);
    var m1 := TakeSnapshot(m, o, f).0;
    assert m1.At(Install) == m.At(Install) && m1.At(Candidate) == m.At(Candidate);
    StageStops(m1, o, f);
    StagedIsCandidate(m1, o, f);
    SwapInstalls(StageUpdate(m1, o, f).0, o, f);
  }

  /** So only an update that is cut short leaves a state that is not ready. */
  lemma CompletedUpdateIsReady(m: Machine, u: Update, runs: Trial)
    requires Ready(m, runs) && Sound(u, runs) && After(m, u).power > 0
    ensures Ready(After(m, u), runs)
  {
    hide Apply;
    BeginKeeps(m, u);
    CompletedInstalls(Begin(m, u), u.options, u.faults);
  }

  /** Otherwise the plan's artifact is installed without having passed its check, and the old one is kept aside. */
  lemma UnreadyMeansCut(m: Machine, u: Update, runs: Trial)
    requires Works(m.At(Install), runs) && Sound(u, runs) && !Ready(After(m, u), runs)
    ensures var m' := After(m, u);
            && m'.power == 0 && Matches(u.options.digest, m'.At(Install), u.options.artifact)
            && m.At(Install) in {m'.At(Previous), m'.At(Archive)}
  {
    hide Apply, Matches;
    BeginKeeps(m, u);
    UpdateNeverLosesExecutable(Begin(m, u), u.options, u.faults);
    if After(m, u).power > 0 {
      CompletedUpdateIsReady(m, u, runs);
    }
  }

  /** All updates ran to their end, whatever failed in them. */
  ghost predicate AllComplete(m: Machine, us: seq<Update>, runs: Trial) {
    us != [] ==>
      && AllComplete(m, us[..|us| - 1], runs)
      && Sound(us[|us| - 1], runs) && AfterAll(m, us).power > 0
  }

  lemma {:induction false} CompletedUpdatesAreReady(m: Machine, us: seq<Update>, runs: Trial)
    requires Survives(m, runs) && Ready(m, runs) && AllComplete(m, us, runs)
    ensures Survives(AfterAll(m, us), runs) && Ready(AfterAll(m, us), runs)
  {
    if us != [] {
      hide After, Survives, Ready, Sound;
      var before, u := us[..|us| - 1], us[|us| - 1];
      CompletedUpdatesAreReady(m, before, runs);
      ReadyUpdateSurvives(AfterAll(m, before), u, runs);
      CompletedUpdateIsReady(AfterAll(m, before), u, runs);
    }
  }

  /**
   Over any number of updates with any failures, of which only the last may be cut short, an executable that works
   stays on disk.
   */
  lemma WorkingExecutableSurvives(m: Machine, us: seq<Update>, last: Update, runs: Trial)
    requires Survives(m, runs) && Ready(m, runs) && AllComplete(m, us, runs)
    ensures Survives(After(AfterAll(m, us), last), runs)
  {
    CompletedUpdatesAreReady(m, us, runs);
    ReadyUpdateSurvives(AfterAll(m, us), last, runs);
  }

  // ---- From a state that is not ---------------------------------------------

  const EASY := Faults(false, false, false, Copied, false, false, false, false, true, Broken(0), false, false)

  /** A plan for these bytes, with nothing to check in the state directory. */
  function PlanFor(data: Bytes): Options {
    Options(Artifact("", |data|), StateContract(1, 1), [], (_: Bytes) => "", (_: Bytes) => None, true, false)
  }

  /**
   The update that does the damage: its candidate is the executable in the archive if that one works, else an empty
   file, and archiving what is installed breaks off at the first byte.
   */
  function Harm(m: Machine, runs: Trial): Update {
    var data := if Works(m.At(Archive), runs) then m.At(Archive).value.data else [];
    Update(Some(Regular(data)), PlanFor(data), EASY.(healthy := Works(m.At(Archive), runs)), 20)
  }

  lemma HarmLoses(m: Machine, runs: Trial)
    requires IsFile(m.At(Install)) && !runs(m.At(Install).value.data) && !runs([])
    ensures Sound(Harm(m, runs), runs) && !Survives(After(m, Harm(m, runs)), runs)
  {
  }

  /**
   Exactly when the updater is safe to start. As long as an executable that works is on disk, every further update
   keeps one, however it ends, if and only if the installed one works or nothing is installed. Otherwise the
   working one may be the one kept aside, which the next update begins by removing.
   */
  lemma EveryUpdateSurvivesIff(m: Machine, runs: Trial)
    requires Survives(m, runs) && !runs([])
    ensures (forall u: Update | Sound(u, runs) :: Survives(After(m, u), runs)) <==> Ready(m, runs)
  {
    if Ready(m, runs) {
      forall u: Update | Sound(u, runs)
        ensures Survives(After(m, u), runs)
      {
        ReadyUpdateSurvives(m, u, runs);
      }
    } else {
      HarmLoses(m, runs);
    }
  }

  /** An update to a file that does not run, cut short right behind the replacing rename. */
  const CUT := Update(Some(Regular([])), PlanFor([]), EASY.(healthy := false), 6)

  lemma CutLeavesUnready(m: Machine, runs: Trial)
    requires IsFile(m.At(Install)) && !runs([])
    ensures var m' := After(m, CUT);
            m'.At(Install) == Some(Regular([])) && m'.At(Previous) == m.At(Install) && m'.At(Archive) == m.At(Archive)
  {
  }

  /** That only the last may be cut short is needed: from any working installation, two updates can lose it. */
  lemma CutThenUpdateLoses(m: Machine, runs: Trial) returns (u: Update, v: Update)
    requires Works(m.At(Install), runs) && !runs([])
    ensures Sound(u, runs) && Sound(v, runs) && Survives(After(m, u), runs)
    ensures !Survives(After(After(m, u), v), runs)
  {
    hide After;
    u := CUT;
    CutLeavesUnready(m, runs);
    v := Harm(After(m, u), runs);
    HarmLoses(After(m, u), runs);
  }
}
