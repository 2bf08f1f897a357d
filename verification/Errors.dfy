/**
 * Go error trees and the decision whether a failed reconcile is parked (its cause is for the user
 * to correct) or returned to the work queue for another attempt.
 */
module Errors {
  import opened Common

  /** The sentinel values that the classifier looks for. */
  datatype Sentinel =
    | ProviderConfigNotFound
    | CredentialsSecretNotFound
    | MissingCredentials
    | InvalidEndpoint
    | BucketAlreadyExists

  /** What `errors.Is` and `errors.As` can find at one node of a tree. */
  datatype Atom =
    | Mark(sentinel: Sentinel)
    | Obs(status: int, code: string)
    | Kube(notFound: bool)
    | Other

  /**
   * `Wrap` is `fmt.Errorf` with one `%w`; `Join` is `errors.Join` or `fmt.Errorf` with several;
   * `Tagged` is a resolutionNotFoundError, which also answers `Is` for its kind.
   */
  datatype Error =
    | Leaf(atom: Atom)
    | Wrap(child: Error)
    | Tagged(kind: Sentinel, child: Error)
    | Join(children: seq<Error>)

  datatype Reason =
    | ReasonProviderConfigNotFound
    | ReasonCredentialsSecretNotFound
    | ReasonCredentialsSecretInvalid
    | ReasonInvalidEndpoint
    | ReasonBucketAlreadyExists
    | ReasonBucketNotEmpty
    | ReasonBucketNotFound
    | ReasonRequestRejected
    | ReasonReconcileFailed
    | ReasonBucketReady

  // ----- Tree search -----

  /** The nodes of a tree in the depth-first order in which `errors.Is` and `errors.As` visit them. */
  function Atoms(e: Error): seq<Atom>
    decreases e, 1
  {
    match e
    case Leaf(a) => [a]
    case Wrap(c) => Atoms(c)
    case Tagged(k, c) => [Mark(k)] + Atoms(c)
    case Join(cs) => AtomsOf(cs)
  }

  function AtomsOf(es: seq<Error>): seq<Atom>
    decreases es, 0
  {
    if es == [] then [] else Atoms(es[0]) + AtomsOf(es[1..])
  }

  predicate Is(e: Error, s: Sentinel) {
    Mark(s) in Atoms(e)
  }

  /** The `obs.ObsError` that `errors.As` assigns. */
  function FirstObs(atoms: seq<Atom>): (r: Option<Atom>)
    ensures r.Some? ==> r.value.Obs? && r.value in atoms
    ensures r.None? ==> forall a | a in atoms :: !a.Obs?
  {
    if atoms == [] then None
    else if atoms[0].Obs? then Some(atoms[0])
    else FirstObs(atoms[1..])
  }

  /** The first Kubernetes API status in the tree, as `apierrors.IsNotFound` reads it. */
  function FirstKube(atoms: seq<Atom>): Option<Atom> {
    if atoms == [] then None
    else if atoms[0].Kube? then Some(atoms[0])
    else FirstKube(atoms[1..])
  }

  function AsObs(e: Error): (r: Option<Atom>)
    ensures r.Some? ==> r.value.Obs?
  {
    FirstObs(Atoms(e))
  }

  predicate IsKubeNotFound(e: Error) {
    FirstKube(Atoms(e)) == Some(Kube(true))
  }

  predicate IsBucketCode(e: Error, code: string) {
    var o := AsObs(e);
    o.Some? && o.value.code == code
  }

  predicate IsBucketNotFound(e: Error) {
    var o := AsObs(e);
    o.Some? && (o.value.status == 404 || o.value.code == "NoSuchBucket")
  }

  predicate IsBucketNotEmpty(e: Error) {
    IsBucketCode(e, "BucketNotEmpty")
  }

  predicate IsCreateConflict(e: Error) {
    var o := AsObs(e);
    o.Some? && (o.value.status == 409 || o.value.code == "BucketAlreadyExists"
      || o.value.code == "BucketAlreadyOwnedByYou")
  }

  /** A 4xx answer other than 404, 408, 409 and 429. */
  predicate IsNonRetryable(e: Error) {
    var o := AsObs(e);
    o.Some? && o.value.status !in {404, 408, 409, 429} && 400 <= o.value.status < 500
  }

  // ----- The classifier -----

  predicate HasMark(e: Error) {
    || Is(e, ProviderConfigNotFound)
    || Is(e, CredentialsSecretNotFound)
    || Is(e, MissingCredentials)
    || Is(e, InvalidEndpoint)
    || Is(e, BucketAlreadyExists)
  }

  predicate CorrectableType(e: Error) {
    HasMark(e) || IsNonRetryable(e)
  }

  predicate Correctable(e: Error)
    decreases e
  {
    match e
    case Join(cs) => cs != [] && forall c | c in cs :: Correctable(c)
    case Wrap(c) => if c.Join? then Correctable(c) else CorrectableType(e) || Correctable(c)
    case Tagged(_, c) => if c.Join? then Correctable(c) else CorrectableType(e) || Correctable(c)
    case Leaf(_) => CorrectableType(e)
  }

  function ReadyReason(e: Error): Reason {
    if Is(e, ProviderConfigNotFound) then ReasonProviderConfigNotFound
    else if Is(e, CredentialsSecretNotFound) then ReasonCredentialsSecretNotFound
    else if IsKubeNotFound(e) then ReasonProviderConfigNotFound
    else if Is(e, MissingCredentials) then ReasonCredentialsSecretInvalid
    else if Is(e, InvalidEndpoint) then ReasonInvalidEndpoint
    else if Is(e, BucketAlreadyExists) then ReasonBucketAlreadyExists
    else if IsBucketNotEmpty(e) then ReasonBucketNotEmpty
    else if IsBucketNotFound(e) then ReasonBucketNotFound
    else if IsNonRetryable(e) then ReasonRequestRejected
    else ReasonReconcileFailed
  }

  // ----- What the classifier is for -----

  /** A node of the tree, wherever it stands. */
  predicate Contains(e: Error, a: Atom)
    decreases e
  {
    match e
    case Leaf(x) => x == a
    case Wrap(c) => Contains(c, a)
    case Tagged(k, c) => a == Mark(k) || Contains(c, a)
    case Join(cs) => exists c | c in cs :: Contains(c, a)
  }

  /**
   * A failure that the user has to correct: it names a missing or invalid provider or a name that is
   * taken, or the service has refused the request as such. A refusal because something is not there
   * (404), because of a conflict (409), or for the moment (408, 429) is not of that kind.
   */
  ghost predicate ForUser(e: Error) {
    || (exists s :: Contains(e, Mark(s)))
    || (AsObs(e).Some? && RefusesRequest(AsObs(e).value.status))
  }

  /** Section 15.5 of RFC 9110 and section 4 of RFC 6585. */
  predicate RefusesRequest(status: int) {
    400 <= status <= 499 && status != 404 && status != 408 && status != 409 && status != 429
  }

  predicate HasJoin(e: Error) {
    match e
    case Leaf(_) => false
    case Wrap(c) => HasJoin(c)
    case Tagged(_, c) => HasJoin(c)
    case Join(_) => true
  }

  /** The independent failures a tree reports: its maximal subtrees that join nothing. */
  function Branches(e: Error): set<Error>
    decreases e
  {
    match e
    case Leaf(_) => {e}
    case Wrap(c) => if HasJoin(c) then Branches(c) else {e}
    case Tagged(_, c) => if HasJoin(c) then Branches(c) else {e}
    case Join(cs) => if cs == [] then {e} else set c, b | c in cs && b in Branches(c) :: b
  }

  /** Every failure that the tree reports is one the user has to correct. */
  ghost predicate EveryBranchCorrectable(e: Error) {
    forall b | b in Branches(e) :: ForUser(b)
  }

  /** The failures that the classifier tells apart: a join below two wrappers is one of them. */
  function Visible(e: Error): set<Error>
    decreases e
  {
    match e
    case Leaf(_) => {e}
    case Wrap(c) => if c.Join? then Visible(c) else {e}
    case Tagged(_, c) => if c.Join? then Visible(c) else {e}
    case Join(cs) => if cs == [] then {e} else set c, b | c in cs && b in Visible(c) :: b
  }

  /** A wrapper sits directly on a join or on a tree without joins. */
  predicate Shallow(e: Error)
    decreases e
  {
    match e
    case Leaf(_) => true
    case Wrap(c) => !HasJoin(c) || (c.Join? && Shallow(c))
    case Tagged(_, c) => !HasJoin(c) || (c.Join? && Shallow(c))
    case Join(cs) => forall c | c in cs :: Shallow(c)
  }

  // ----- Parked errors have an informative reason -----

  /** The search visits every node. */
  lemma {:induction false} SearchFinds(e: Error, a: Atom)
    ensures a in Atoms(e) <==> Contains(e, a)
    decreases e
  {
    match e
    case Leaf(_) =>
    case Wrap(c) => SearchFinds(c, a);
    case Tagged(_, c) => SearchFinds(c, a);
    case Join(cs) =>
      forall c | c in cs ensures a in Atoms(c) <==> Contains(c, a) { SearchFinds(c, a); }
      SearchFindsIn(cs, a);
  }

  lemma {:induction false} SearchFindsIn(es: seq<Error>, a: Atom)
    ensures a in AtomsOf(es) <==> exists c | c in es :: a in Atoms(c)
  {
    if es != [] {
      SearchFindsIn(es[1..], a);
      if c :| c in es && a in Atoms(c) {
        assert c == es[0] || c in es[1..];
      }
    }
  }

  /** `errors.As` assigns the first answer in depth-first order. */
  lemma {:induction false} FirstAnswer(e: Error, es: seq<Error>)
    ensures AsObs(Wrap(e)) == AsObs(e) && forall k :: AsObs(Tagged(k, e)) == AsObs(e)
    ensures AsObs(Join([e] + es)) == if AsObs(e).Some? then AsObs(e) else AsObs(Join(es))
  {
    forall k ensures AsObs(Tagged(k, e)) == AsObs(e) {
      assert ([Mark(k)] + Atoms(e))[1..] == Atoms(e);
    }
    assert ([e] + es)[0] == e && ([e] + es)[1..] == es;
    assert AtomsOf([e] + es) == Atoms(e) + AtomsOf(es);
    if AsObs(e).Some? { FirstObsOfPrefix(Atoms(e), AtomsOf(es)); } else { FirstObsOfRest(Atoms(e), AtomsOf(es)); }
  }

  lemma {:induction false} FirstObsOfRest(a: seq<Atom>, b: seq<Atom>)
    requires FirstObs(a).None?
    ensures FirstObs(a + b) == FirstObs(b)
  {
    if a == [] {
      assert a + b == b;
    } else {
      assert (a + b)[1..] == a[1..] + b;
      FirstObsOfRest(a[1..], b);
    }
  }

  /** What the classifier looks for is what the user has to correct. */
  lemma TypeMeans(e: Error)
    ensures CorrectableType(e) <==> ForUser(e)
  {
    forall s ensures Is(e, s) <==> Contains(e, Mark(s)) { SearchFinds(e, Mark(s)); }
    forall s | Is(e, s) ensures HasMark(e) { EverySentinelIsSearched(e, s); }
  }

  lemma FirstObsOfPrefix(a: seq<Atom>, b: seq<Atom>)
    requires FirstObs(a).Some?
    ensures FirstObs(a + b) == FirstObs(a)
  {
    if !a[0].Obs? {
      assert (a + b)[1..] == a[1..] + b;
      FirstObsOfPrefix(a[1..], b);
    }
  }

  lemma EverySentinelIsSearched(e: Error, s: Sentinel)
    requires Is(e, s)
    ensures HasMark(e)
  {
    match s {
      case ProviderConfigNotFound =>
      case CredentialsSecretNotFound =>
      case MissingCredentials =>
      case InvalidEndpoint =>
      case BucketAlreadyExists =>
    }
  }

  /** Whatever its shape, a tree that is parked is recognised by the search over the whole tree. */
  lemma {:induction false} CorrectableIsVisible(e: Error)
    requires Correctable(e)
    ensures CorrectableType(e)
    decreases e
  {
    match e
    case Leaf(_) =>
    case Wrap(c) =>
      if Correctable(c) { CorrectableIsVisible(c); }
    case Tagged(k, c) =>
      assert Is(e, k);
      EverySentinelIsSearched(e, k);
    case Join(cs) =>
      CorrectableIsVisible(cs[0]);
      assert Atoms(e) == Atoms(cs[0]) + AtomsOf(cs[1..]);
      if IsNonRetryable(cs[0]) {
        FirstObsOfPrefix(Atoms(cs[0]), AtomsOf(cs[1..]));
      }
  }

  lemma CorrectableReason(e: Error)
    requires Correctable(e)
    ensures ReadyReason(e) != ReasonReconcileFailed && ReadyReason(e) != ReasonBucketReady
  {
    CorrectableIsVisible(e);
  }

  // ----- The verdict on every tree -----

  /** On every tree: an error is parked exactly when the user has to correct each failure that is told apart. */
  lemma Verdict(e: Error)
    ensures Correctable(e) <==> forall b | b in Visible(e) :: ForUser(b)
  {
    VerdictByType(e);
    forall b ensures CorrectableType(b) <==> ForUser(b) { TypeMeans(b); }
  }

  lemma {:induction false} VerdictByType(e: Error)
    ensures Correctable(e) <==> forall b | b in Visible(e) :: CorrectableType(b)
    decreases e
  {
    if Correctable(e) { CorrectableIsVisible(e); }
    match e
    case Leaf(_) =>
    case Wrap(c) => if c.Join? { VerdictByType(c); }
    case Tagged(_, c) => if c.Join? { VerdictByType(c); }
    case Join(cs) =>
      if cs == [] {
        EmptyJoinReportsNothing();
      } else {
        forall c | c in cs ensures Correctable(c) <==> forall b | b in Visible(c) :: CorrectableType(b) {
          VerdictByType(c);
        }
        assert forall c | c in cs :: Visible(c) <= Visible(e);
      }
  }

  lemma EmptyJoinReportsNothing()
    ensures Visible(Join([])) == {Join([])} && Branches(Join([])) == {Join([])} && !CorrectableType(Join([]))
  {
    assert AtomsOf([]) == [];
    assert Atoms(Join([])) == [];
  }

  function BranchesIn(bs: set<Error>): set<Error> {
    set b, x | b in bs && x in Branches(b) :: x
  }

  /** Without joins the recursion answers what the search over the whole tree answers. */
  lemma JoinFreeVerdict(e: Error)
    requires !HasJoin(e)
    ensures (Correctable(e) <==> ForUser(e)) && Branches(e) == {e}
  {
    Verdict(e);
  }

  /** What a tree reports is what its visible failures report. */
  lemma {:induction false} BranchesOfVisible(e: Error)
    ensures Branches(e) == BranchesIn(Visible(e))
    decreases e
  {
    match e
    case Leaf(_) =>
    case Wrap(c) => if c.Join? { BranchesOfVisible(c); }
    case Tagged(_, c) => if c.Join? { BranchesOfVisible(c); }
    case Join(cs) =>
      if cs != [] {
        forall c | c in cs ensures Branches(c) == BranchesIn(Visible(c)) && Visible(c) <= Visible(e) {
          BranchesOfVisible(c);
        }
        forall x | x in BranchesIn(Visible(e)) ensures x in Branches(e) {
          var b :| b in Visible(e) && x in Branches(b);
          var c :| c in cs && b in Visible(c);
          assert x in BranchesIn(Visible(c));
        }
        forall x | x in Branches(e) ensures x in BranchesIn(Visible(e)) {
          var c :| c in cs && x in Branches(c);
          assert x in BranchesIn(Visible(c));
        }
      }
  }

  /** A visible failure that is itself a tree with a join: the join is hidden below two wrappers. */
  predicate Hides(b: Error) {
    HasJoin(b) && !b.Join?
  }

  /** Shallow trees are those that hide no join. */
  lemma {:induction false} ShallowHidesNothing(e: Error)
    ensures Shallow(e) <==> forall b | b in Visible(e) :: !Hides(b)
    decreases e
  {
    match e
    case Leaf(_) =>
    case Wrap(c) => if c.Join? { ShallowHidesNothing(c); } else { assert e in Visible(e) && Hides(e) == !Shallow(e); }
    case Tagged(_, c) => if c.Join? { ShallowHidesNothing(c); }
        else { assert e in Visible(e) && Hides(e) == !Shallow(e); }
    case Join(cs) =>
      forall c | c in cs ensures Shallow(c) <==> forall b | b in Visible(c) :: !Hides(b) {
        ShallowHidesNothing(c);
      }
      assert cs != [] ==> forall c | c in cs :: Visible(c) <= Visible(e);
  }

  lemma {:induction false} VisibleJoinIsEmpty(e: Error)
    ensures forall b | b in Visible(e) && b.Join? :: b == Join([])
    decreases e
  {
    match e
    case Leaf(_) =>
    case Wrap(c) => VisibleJoinIsEmpty(c);
    case Tagged(_, c) => VisibleJoinIsEmpty(c);
    case Join(cs) =>
      forall c | c in cs ensures forall b | b in Visible(c) && b.Join? :: b == Join([]) {
        VisibleJoinIsEmpty(c);
      }
  }

  /** A visible failure that hides no join is its own only branch. */
  lemma VisibleBranches(e: Error, b: Error)
    requires b in Visible(e) && !Hides(b)
    ensures Branches(b) == {b}
  {
    VisibleJoinIsEmpty(e);
  }

  /** On shallow trees the classifier tells apart what the tree reports. */
  lemma ShallowShowsAll(e: Error)
    requires Shallow(e)
    ensures Visible(e) == Branches(e)
  {
    ShallowHidesNothing(e);
    BranchesOfVisible(e);
    forall b | b in Visible(e) ensures Branches(b) == {b} {
      VisibleBranches(e, b);
    }
  }

  /** On shallow trees the classifier answers exactly "every joined failure is user-correctable". */
  lemma ClassifierMeaning(e: Error)
    requires Shallow(e)
    ensures Correctable(e) <==> EveryBranchCorrectable(e)
  {
    Verdict(e);
    ShallowShowsAll(e);
  }

  /** The classifier never parks less than it should: the guarantee holds without any shape. */
  lemma ClassifierComplete(e: Error)
    requires EveryBranchCorrectable(e)
    ensures Correctable(e)
  {
    forall b ensures CorrectableType(b) <==> ForUser(b) { TypeMeans(b); }
    CompleteByType(e);
  }

  lemma {:induction false} CompleteByType(e: Error)
    requires forall b | b in Branches(e) :: CorrectableType(b)
    ensures Correctable(e)
    decreases e
  {
    match e
    case Leaf(_) =>
    case Wrap(c) => if HasJoin(c) { CompleteByType(c); }
    case Tagged(_, c) => if HasJoin(c) { CompleteByType(c); }
    case Join(cs) =>
      if cs == [] { EmptyJoinReportsNothing(); }
      forall c | c in cs ensures Correctable(c) {
        assert Branches(c) <= Branches(e);
        CompleteByType(c);
      }
  }

  /**
   * On every tree the verdict has its meaning exactly when some visible failure is not correctable,
   * or every hidden join joins correctable failures only.
   */
  lemma MeaningExactly(e: Error)
    ensures (Correctable(e) <==> EveryBranchCorrectable(e))
       <==> ((exists b :: b in Visible(e) && !ForUser(b)) ||
             (forall b | b in Visible(e) && Hides(b) :: EveryBranchCorrectable(b)))
  {
    Verdict(e);
    BranchesOfVisible(e);
    if EveryBranchCorrectable(e) {
      ClassifierComplete(e);
    }
    forall b | b in Visible(e) && !Hides(b) ensures Branches(b) == {b} {
      VisibleBranches(e, b);
    }
    if forall b | b in Visible(e) && Hides(b) :: EveryBranchCorrectable(b) {
      forall b | b in Visible(e) ensures ForUser(b) ==> EveryBranchCorrectable(b) {
      }
    }
  }

  /** A wrapper above a wrapped join parks whatever a search finds correctable, and every failure joined with it. */
  lemma HiddenFailureIsParked(e: Error, b: Error)
    requires (e.Wrap? || e.Tagged?) && !e.child.Join? && HasJoin(e.child) && ForUser(e)
    requires b in Branches(e) && !ForUser(b)
    ensures Correctable(e) && !EveryBranchCorrectable(e)
  {
    Verdict(e);
  }

  /** A transient failure beside a correctable one is parked when it is wrapped twice. */
  lemma DeepJoinParksTransientFailure()
    ensures var deep := Wrap(Wrap(Join([Leaf(Mark(BucketAlreadyExists)), Leaf(Other)])));
            Correctable(deep) && !EveryBranchCorrectable(deep)
  {
    var es := [Leaf(Mark(BucketAlreadyExists)), Leaf(Other)];
    var join := Join(es);
    var deep := Wrap(Wrap(join));
    assert es[1..] == [Leaf(Other)];
    assert Atoms(join) == [Mark(BucketAlreadyExists)] + ([Other] + []);
    assert Atoms(deep) == Atoms(Wrap(join)) == Atoms(join);
    TypeMeans(deep);
    TypeMeans(Leaf(Other));
    assert Is(deep, BucketAlreadyExists);
    assert Leaf(Other) in es && Leaf(Other) in Branches(Leaf(Other));
    assert Branches(deep) == Branches(Wrap(join)) == Branches(join);
    assert Atoms(Leaf(Other)) == [Other];
    HiddenFailureIsParked(deep, Leaf(Other));
  }

  // ----- Errors that API calls hand to the reconciler -----

  /** A failure of a Kubernetes API call. */
  predicate KubeFailure(e: Error) {
    e == Leaf(Other) || (e.Leaf? && e.atom.Kube?)
  }

  /** A failure of an OBS call: an answer of the service or a transport error. */
  predicate ObsFailure(e: Error) {
    e == Leaf(Other) || (e.Leaf? && e.atom.Obs?)
  }

  // What an answer of the service says, and what the reconciler takes it for.

  /** The bucket is not there. */
  predicate SaysAbsent(e: Error) {
    e.Leaf? && e.atom.Obs? && (e.atom.status == 404 || e.atom.code == "NoSuchBucket")
  }

  /** The bucket has contents. */
  predicate SaysNotEmpty(e: Error) {
    e.Leaf? && e.atom.Obs? && e.atom.code == "BucketNotEmpty"
  }

  /** The name is taken. */
  predicate SaysTaken(e: Error) {
    && e.Leaf? && e.atom.Obs?
    && (e.atom.status == 409 || e.atom.code in {"BucketAlreadyExists", "BucketAlreadyOwnedByYou"})
  }

  predicate SaysCode(e: Error, code: string) {
    e.Leaf? && e.atom.Obs? && e.atom.code == code
  }

  lemma AnswersAreUnderstood(e: Error)
    requires ObsFailure(e)
    ensures IsBucketNotFound(e) <==> SaysAbsent(e)
    ensures IsBucketNotEmpty(e) <==> SaysNotEmpty(e)
    ensures IsCreateConflict(e) <==> SaysTaken(e)
    ensures forall code :: IsBucketCode(e, code) <==> SaysCode(e, code)
    ensures IsNonRetryable(e) <==> e.atom.Obs? && RefusesRequest(e.atom.status)
    ensures AsObs(e) == AsObs(Wrap(e)) == if e.atom.Obs? then Some(e.atom) else None
  {
    assert Atoms(e) == [e.atom] == Atoms(Wrap(e));
    assert FirstObs([e.atom]) == if e.atom.Obs? then Some(e.atom) else FirstObs([]);
  }

  /** A reported answer of the service is the user's to correct exactly if it refuses the request. */
  lemma AnswerForUser(e: Error)
    requires ObsFailure(e)
    ensures EveryBranchCorrectable(Wrap(e)) <==> e.atom.Obs? && RefusesRequest(e.atom.status)
    ensures Correctable(Wrap(e)) <==> e.atom.Obs? && RefusesRequest(e.atom.status)
  {
    AnswersAreUnderstood(e);
    ClassifierMeaning(Wrap(e));
    assert Branches(Wrap(e)) == {Wrap(e)};
    forall s ensures !Contains(Wrap(e), Mark(s)) {
    }
  }

  /** The reason that is recorded for an answer of the service. */
  lemma AnswerReason(status: int, code: string)
    ensures ReadyReason(Wrap(Leaf(Obs(status, code)))) ==
              if code == "BucketNotEmpty" then ReasonBucketNotEmpty
              else if status == 404 || code == "NoSuchBucket" then ReasonBucketNotFound
              else if RefusesRequest(status) then ReasonRequestRejected
              else ReasonReconcileFailed
  {
    var e := Wrap(Leaf(Obs(status, code)));
    assert Atoms(e) == [Obs(status, code)];
    assert FirstKube(Atoms(e)) == FirstKube([]) == None;
    assert FirstObs(Atoms(e)) == Some(Obs(status, code));
  }

  lemma OneAtom(a: Atom)
    ensures Atoms(Leaf(a)) == [a] == Atoms(Wrap(Leaf(a)))
    ensures FirstKube([a]) == if a.Kube? then Some(a) else None
    ensures FirstObs([a]) == if a.Obs? then Some(a) else None
  {
    assert [a][1..] == [];
  }

  /** The reason that is recorded for what resolving the provider finds missing. */
  lemma MissingReasons()
    ensures ReadyReason(Tagged(ProviderConfigNotFound, Leaf(Kube(true)))) == ReasonProviderConfigNotFound
    ensures ReadyReason(Tagged(CredentialsSecretNotFound, Leaf(Kube(true)))) == ReasonCredentialsSecretNotFound
    ensures ReadyReason(Leaf(Kube(true))) == ReasonProviderConfigNotFound
  {
    OneAtom(Kube(true));
    assert Atoms(Tagged(ProviderConfigNotFound, Leaf(Kube(true)))) == [Mark(ProviderConfigNotFound)] + [Kube(true)];
    assert Atoms(Tagged(CredentialsSecretNotFound, Leaf(Kube(true)))) ==
      [Mark(CredentialsSecretNotFound)] + [Kube(true)];
  }

  /** The reason for what it finds invalid, and for a taken name. */
  lemma InvalidReasons()
    ensures ReadyReason(Wrap(Leaf(Mark(MissingCredentials)))) == ReasonCredentialsSecretInvalid
    ensures ReadyReason(Wrap(Leaf(Mark(InvalidEndpoint)))) == ReasonInvalidEndpoint
    ensures ReadyReason(Wrap(Leaf(Mark(BucketAlreadyExists)))) == ReasonBucketAlreadyExists
  {
    OneAtom(Mark(MissingCredentials));
    OneAtom(Mark(InvalidEndpoint));
    OneAtom(Mark(BucketAlreadyExists));
  }

  /** The reason for a failure without a name. */
  lemma OtherReasons()
    ensures ReadyReason(Leaf(Kube(false))) == ReadyReason(Leaf(Other)) == ReasonReconcileFailed
    ensures ReadyReason(Wrap(Leaf(Other))) == ReasonReconcileFailed
  {
    OneAtom(Kube(false));
    OneAtom(Other);
  }

  /** What resolving the provider ends with is parked exactly if it names what is missing or invalid. */
  lemma NamedFailuresAreParked()
    ensures forall k: Sentinel :: Correctable(Tagged(k, Leaf(Kube(true)))) && Correctable(Wrap(Leaf(Mark(k))))
    ensures !Correctable(Leaf(Kube(true))) && !Correctable(Leaf(Kube(false))) && !Correctable(Wrap(Leaf(Other)))
  {
    forall k: Sentinel ensures Correctable(Tagged(k, Leaf(Kube(true)))) && Correctable(Wrap(Leaf(Mark(k)))) {
      JoinFreeVerdict(Tagged(k, Leaf(Kube(true))));
      JoinFreeVerdict(Wrap(Leaf(Mark(k))));
      assert Contains(Tagged(k, Leaf(Kube(true))), Mark(k)) && Contains(Wrap(Leaf(Mark(k))), Mark(k));
    }
    KubeFailureIsRetried(Leaf(Kube(true)));
    KubeFailureIsRetried(Leaf(Kube(false)));
    KubeFailureIsRetried(Leaf(Other));
  }

  lemma KubeFailureIsRetried(e: Error)
    requires KubeFailure(e)
    ensures !Correctable(e) && !Correctable(Wrap(e))
  {
    assert Atoms(e) == [e.atom];
  }

  /** A create conflict whose finalizer removal failed as well is always handed back for a retry. */
  lemma ConflictWithFailedRemoval(removal: Error)
    requires KubeFailure(removal)
    ensures var e := Join([Wrap(Leaf(Mark(BucketAlreadyExists))), Wrap(removal)]);
            && !Correctable(e) && Shallow(e)
            && ReadyReason(e) ==
               if removal == Leaf(Kube(true)) then ReasonProviderConfigNotFound else ReasonBucketAlreadyExists
  {
    KubeFailureIsRetried(removal);
    var es := [Wrap(Leaf(Mark(BucketAlreadyExists))), Wrap(removal)];
    var e := Join(es);
    assert Wrap(removal) in es;
    assert es[1..] == [Wrap(removal)] && es[1..][1..] == [];
    assert Atoms(es[1]) == Atoms(removal) == [removal.atom];
    assert AtomsOf(es[1..]) == [removal.atom];
    assert Atoms(es[0]) == [Mark(BucketAlreadyExists)];
    assert Atoms(e) == [Mark(BucketAlreadyExists), removal.atom];
    assert Atoms(e)[1..] == [removal.atom] && Atoms(e)[1..][1..] == [];
    assert FirstKube(Atoms(e)) == FirstKube([removal.atom]);
  }
}
