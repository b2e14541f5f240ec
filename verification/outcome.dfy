/** What one push does to a node that runs a service on a configuration file, when the
    push reports failure. The same for every kind of content. */
module PushOutcome {
  import opened Tables

  datatype File<+C> = NoFile | Torn | Holds(content: C)

  /** Which file a node is left with when its service stays down. */
  datatype Left = OldFile | NewFile | TornFile

  /** `Kept`: nothing happened. `Staged`, `Spoiled`: the new or a torn file is in place, and nothing was
      restarted. `Landed`: everything worked, only the answer says otherwise. `FellBack`: the service
      did not come up, and was started again on the file as it was before. `Down`: it did not come up at
      all. */
  datatype Failure = Kept | Staged | Spoiled | Landed | FellBack | Down(left: Left)

  function FileAfter<C>(file: File<C>, candidate: C, how: Failure): File<C> {
    match how
    case Kept => file
    case Staged => Holds(candidate)
    case Spoiled => Torn
    case Landed => Holds(candidate)
    case FellBack => file
    case Down(OldFile) => file
    case Down(NewFile) => Holds(candidate)
    case Down(TornFile) => Torn
  }

  /** A service that is started without a whole file stays down. */
  function ServedAfter<C>(file: File<C>, served: Option<C>, candidate: C, how: Failure): Option<C> {
    match how
    case Landed => Some(candidate)
    case FellBack => if file.Holds? then Some(file.content) else None
    case Down(_) => None
    case _ => served
  }

  /** The service runs on what is in the file. */
  predicate InOrder<C(==)>(file: File<C>, served: Option<C>) { file.Holds? && served == Some(file.content) }

  /** When file and service are in order afterwards, whatever they were before. */
  lemma OrderIff<C>(file: File<C>, served: Option<C>, candidate: C, how: Failure)
    ensures InOrder(FileAfter(file, candidate, how), ServedAfter(file, served, candidate, how)) <==>
              || how == Landed
              || (how == Kept && InOrder(file, served))
              || (how == FellBack && file.Holds?)
              || (how == Staged && served == Some(candidate))
  {
  }

  /** A push that fails leaves file and service in order exactly when it did nothing, landed or fell
      back; and then it serves what was served before, unless it landed. */
  lemma OrderKeptIff<C>(file: File<C>, served: Option<C>, candidate: C, how: Failure)
    requires InOrder(file, served) && served != Some(candidate)
    ensures InOrder(FileAfter(file, candidate, how), ServedAfter(file, served, candidate, how))
            <==> how in {Kept, Landed, FellBack}
    ensures ServedAfter(file, served, candidate, how) == served <==> how in {Kept, Staged, Spoiled, FellBack}
  {
    OrderIff(file, served, candidate, how);
  }

  /** The push left its candidate in the file. */
  predicate Writes(how: Failure) { how in {Staged, Landed, Down(NewFile)} }

  /** File and service after a series of pushes. */
  function After<C>(file: File<C>, served: Option<C>, pushes: seq<(C, Failure)>): (r: (File<C>, Option<C>))
    decreases |pushes|
  {
    if pushes == [] then (file, served)
    else
      var (candidate, how) := pushes[|pushes| - 1];
      var (f, s) := After(file, served, pushes[..|pushes| - 1]);
      (FileAfter(f, candidate, how), ServedAfter(f, s, candidate, how))
  }

  /** No push since the `k`-th has touched the file. */
  predicate LeftAlone<C>(pushes: seq<(C, Failure)>, k: nat) {
    forall j | k <= j < |pushes| :: pushes[j].1 in {Kept, FellBack, Down(OldFile)}
  }

  /** The file holds the candidate of the last push that touched it, or what it held at the start. */
  lemma {:induction false} FileIsLastWritten<C>(file: File<C>, served: Option<C>, pushes: seq<(C, Failure)>, k: nat)
    requires k <= |pushes| && LeftAlone(pushes, k)
    ensures k > 0 && Writes(pushes[k - 1].1) ==> After(file, served, pushes).0 == Holds(pushes[k - 1].0)
    ensures k == 0 ==> After(file, served, pushes).0 == file
  {
    if k < |pushes| {
      assert forall j | k <= j < |pushes| - 1 :: pushes[..|pushes| - 1][j] == pushes[j];
      FileIsLastWritten(file, served, pushes[..|pushes| - 1], k);
    }
  }

  /** So a fall-back serves the candidate of the last push that touched the file, even of one that
      never restarted the service. */
  lemma {:induction false} FallBackServes<C>(file: File<C>, served: Option<C>, pushes: seq<(C, Failure)>, k: nat)
    requires 0 < k < |pushes| && Writes(pushes[k - 1].1) && LeftAlone(pushes, k)
    requires pushes[|pushes| - 1].1 == FellBack
    ensures After(file, served, pushes).1 == Some(pushes[k - 1].0)
  {
    assert forall j | k <= j < |pushes| - 1 :: pushes[..|pushes| - 1][j] == pushes[j];
    FileIsLastWritten(file, served, pushes[..|pushes| - 1], k);
  }
}
