/**
 * Identity generation for service declarations (ModuleAssemblyImpl.generateId and
 * the service loop of assembleModule), stated as functions over the list of
 * service declarations.
 */
module ServiceIdentities {
  import opened Wrappers
  import opened JavaLang
  import opened Collections

  /** A ServiceAssemblyImpl: the declared type and its identity, null until set. */
  datatype ServiceDecl = ServiceDecl(serviceType: ClassName, identity: Option<string>)

  /** The decimal digit for `d`, as Java's Integer.toString writes it. */
  function DigitChar(d: nat): (c: char)
    requires d < 10
  {
    ('0' as int + d) as char
  }

  /** Integer.toString(n) for a non-negative `n`. */
  function Decimal(n: nat): (s: string)
    ensures |s| >= 1
    ensures n >= 10 ==> |s| >= 2
    decreases n
  {
    if n < 10 then [DigitChar(n)] else Decimal(n / 10) + [DigitChar(n % 10)]
  }

  /** Different numbers have different decimal renderings. */
  lemma {:induction false} DecimalInjective(a: nat, b: nat)
    requires Decimal(a) == Decimal(b)
    ensures a == b
    decreases a
  {
    var s := Decimal(a);
    if a < 10 && b < 10 {
      assert s[0] == DigitChar(a) && s[0] == DigitChar(b);
    } else if a >= 10 && b >= 10 {
      assert s[|s| - 1] == DigitChar(a % 10) == DigitChar(b % 10);
      assert s[..|s| - 1] == Decimal(a / 10) == Decimal(b / 10);
      DecimalInjective(a / 10, b / 10);
    }
  }

  /**
   * The identity generateId tries on its idx-th attempt: the simple name itself,
   * then simpleName + "_" + idx.
   */
  function Candidate(simpleName: string, idx: nat): (id: string)
  {
    if idx == 0 then simpleName else simpleName + "_" + Decimal(idx)
  }

  /** Attempts with different indices try different identities. */
  lemma CandidateInjective(simpleName: string, i: nat, j: nat)
    requires Candidate(simpleName, i) == Candidate(simpleName, j)
    ensures i == j
  {
    if i != 0 && j != 0 {
      var n := |simpleName| + 1;
      assert Candidate(simpleName, i)[n..] == Decimal(i);
      assert Candidate(simpleName, j)[n..] == Decimal(j);
      DecimalInjective(i, j);
    }
  }

  /** Attempts with different indices try different identities (the contrapositive form). */
  lemma CandidatesDiffer(simpleName: string, i: nat, j: nat)
    requires i != j
    ensures Candidate(simpleName, i) != Candidate(simpleName, j)
  {
    if Candidate(simpleName, i) == Candidate(simpleName, j) {
      CandidateInjective(simpleName, i, j);
    }
  }

  /** If the first n attempts are all taken, at least n identities are taken. */
  lemma {:induction false} CandidatesFitIn(simpleName: string, n: nat, held: set<string>)
    requires forall k :: 0 <= k < n ==> Candidate(simpleName, k) in held
    ensures n <= |held|
  {
    if n > 0 {
      var last := Candidate(simpleName, n - 1);
      var rest := held - {last};
      forall k | 0 <= k < n - 1
        ensures Candidate(simpleName, k) in rest
      {
        if Candidate(simpleName, k) == last {
          CandidateInjective(simpleName, k, n - 1);
        }
      }
      CandidatesFitIn(simpleName, n - 1, rest);
    }
  }

  /**
   * The index at which generateId's do-while loop stops when it starts at
   * `from` and the identities in `held` are taken: the first free attempt.
   */
  function FirstFreeIndex(simpleName: string, held: set<string>, from: nat): (k: nat)
    requires forall j :: 0 <= j < from ==> Candidate(simpleName, j) in held
    ensures from <= k
    ensures Candidate(simpleName, k) !in held
    ensures forall j :: 0 <= j < k ==> Candidate(simpleName, j) in held
    decreases |held| - from
  {
    if Candidate(simpleName, from) !in held then from
    else
      CandidatesFitIn(simpleName, from + 1, held);
      FirstFreeIndex(simpleName, held, from + 1)
  }

  /** The non-null identities of a list of service declarations. */
  function HeldIdentities(services: seq<ServiceDecl>): (held: set<string>)
  {
    set i | 0 <= i < |services| && services[i].identity.Some? :: services[i].identity.value
  }

  /** What generateId(serviceType) returns while the module holds `services`. */
  function GeneratedId(serviceType: ClassName, services: seq<ServiceDecl>): (id: string)
  {
    Candidate(serviceType.simpleName, FirstFreeIndex(serviceType.simpleName, HeldIdentities(services), 0))
  }

  /** The generated identity is held by no service declaration. */
  lemma GeneratedIdIsFree(serviceType: ClassName, services: seq<ServiceDecl>, i: nat)
    requires i < |services|
    ensures services[i].identity != Some(GeneratedId(serviceType, services))
  {
    if services[i].identity.Some? {
      assert services[i].identity.value in HeldIdentities(services);
    }
  }

  /** One iteration of the service loop of assembleModule, at position i. */
  function AssignAt(services: seq<ServiceDecl>, i: nat): (r: seq<ServiceDecl>)
    requires i < |services|
    ensures |r| == |services|
  {
    if services[i].identity.None? then
      services[i := services[i].(identity := Some(GeneratedId(services[i].serviceType, services)))]
    else
      services
  }

  /** The service loop of assembleModule from position i on. */
  function AssignFrom(services: seq<ServiceDecl>, i: nat): (r: seq<ServiceDecl>)
    requires i <= |services|
    ensures |r| == |services|
    decreases |services| - i
  {
    if i == |services| then services else AssignFrom(AssignAt(services, i), i + 1)
  }

  /** The service declarations after the whole service loop of assembleModule. */
  function AssignIdentities(services: seq<ServiceDecl>): (r: seq<ServiceDecl>)
  {
    AssignFrom(services, 0)
  }

  /** The explicitly set identities of `services` are pairwise different. */
  predicate ExplicitIdentitiesDistinct(services: seq<ServiceDecl>)
  {
    forall i, j :: 0 <= i < j < |services| && services[i].identity.Some? ==> services[i].identity != services[j].identity
  }

  /** The identities of a list of declarations that all have one. */
  function Identities(services: seq<ServiceDecl>): (ids: seq<string>)
    requires forall k :: 0 <= k < |services| ==> services[k].identity.Some?
    ensures |ids| == |services|
  {
    seq(|services|, k requires 0 <= k < |services| => services[k].identity.value)
  }

  /**
   * What holds of the list `t` after the loop has processed positions 0 .. k-1
   * of the original list `s`.
   */
  ghost predicate Stage(s: seq<ServiceDecl>, t: seq<ServiceDecl>, k: nat)
  {
    && k <= |s| == |t|
    && (forall j :: 0 <= j < |s| ==> t[j].serviceType == s[j].serviceType)
    && (forall j :: 0 <= j < k ==> t[j].identity.Some?)
    && (forall j :: k <= j < |s| ==> t[j] == s[j])
    && (forall j :: 0 <= j < |s| && s[j].identity.Some? ==> t[j] == s[j])
    && (forall i, j :: 0 <= i < k && 0 <= j < |s| && i != j && s[i].identity.None? && t[j].identity.Some? ==>
          t[j].identity != t[i].identity)
  }

  lemma StageStep(s: seq<ServiceDecl>, t: seq<ServiceDecl>, k: nat)
    requires Stage(s, t, k) && k < |s|
    ensures Stage(s, AssignAt(t, k), k + 1)
  {
    var t' := AssignAt(t, k);
    if t[k].identity.None? {
      var g := GeneratedId(t[k].serviceType, t);
      assert t'[k].identity == Some(g);
      forall j | 0 <= j < |t| && j != k
        ensures t'[j].identity != Some(g)
      {
        GeneratedIdIsFree(t[k].serviceType, t, j);
      }
    }
  }

  lemma {:induction false} StageFinish(s: seq<ServiceDecl>, t: seq<ServiceDecl>, k: nat)
    requires Stage(s, t, k)
    ensures Stage(s, AssignFrom(t, k), |s|)
    decreases |s| - k
  {
    if k < |s| {
      StageStep(s, t, k);
      StageFinish(s, AssignAt(t, k), k + 1);
    }
  }

  /**
   * After the service loop every declaration has an identity, types and
   * explicitly set identities are unchanged, and every generated identity
   * differs from the identity of every other declaration.
   */
  lemma AssignIdentitiesSpec(s: seq<ServiceDecl>)
    ensures |AssignIdentities(s)| == |s|
    ensures forall j :: 0 <= j < |s| ==> AssignIdentities(s)[j].serviceType == s[j].serviceType
    ensures forall j :: 0 <= j < |s| ==> AssignIdentities(s)[j].identity.Some?
    ensures forall j :: 0 <= j < |s| && s[j].identity.Some? ==> AssignIdentities(s)[j] == s[j]
    ensures forall i, j :: 0 <= i < |s| && 0 <= j < |s| && i != j && s[i].identity.None? ==>
              AssignIdentities(s)[i].identity != AssignIdentities(s)[j].identity
  {
    StageFinish(s, s, 0);
  }

  /**
   * Generated identities never clash: if the explicitly set identities are
   * pairwise different, so are all identities after the service loop.
   */
  lemma AssignedIdentitiesDistinct(s: seq<ServiceDecl>)
    requires ExplicitIdentitiesDistinct(s)
    ensures forall k :: 0 <= k < |AssignIdentities(s)| ==> AssignIdentities(s)[k].identity.Some?
    ensures Distinct(Identities(AssignIdentities(s)))
  {
    AssignIdentitiesSpec(s);
    var r := AssignIdentities(s);
    var ids := Identities(r);
    forall i, j | 0 <= i < j < |ids|
      ensures ids[i] != ids[j]
    {
      assert r[i].identity != r[j].identity;
    }
  }

  /**
   * What holds after the service loop has processed k of the declarations of
   * `s`, all of which started without identity and with a type of simple name
   * `n`: the first k got the first k attempts, the others are untouched, and
   * no type changed.
   */
  ghost predicate FirstComeStage(n: string, s: seq<ServiceDecl>, decls: seq<ServiceDecl>, k: nat)
  {
    && |decls| == |s|
    && k <= |s|
    && (forall j :: 0 <= j < |s| ==> decls[j].serviceType == s[j].serviceType && s[j].serviceType.simpleName == n)
    && (forall j :: 0 <= j < k ==> decls[j].identity == Some(Candidate(n, j)))
    && (forall j :: k <= j < |s| ==> decls[j].identity.None?)
  }

  lemma FirstComeStep(n: string, s: seq<ServiceDecl>, decls: seq<ServiceDecl>, k: nat)
    requires FirstComeStage(n, s, decls, k) && k < |s|
    ensures FirstComeStage(n, s, AssignAt(decls, k), k + 1)
  {
    var held := HeldIdentities(decls);
    forall j | 0 <= j < k
      ensures Candidate(n, j) in held
    {
      assert decls[j].identity.value == Candidate(n, j);
    }
    forall i | 0 <= i < |decls|
      ensures decls[i].identity != Some(Candidate(n, k))
    {
      if i < k {
        CandidatesDiffer(n, i, k);
      }
    }
    assert Candidate(n, k) !in held;
    var r := FirstFreeIndex(n, held, 0);
    assert r == k;
    assert GeneratedId(decls[k].serviceType, decls) == Candidate(n, k);
  }

  lemma {:induction false} FirstComeFinish(n: string, s: seq<ServiceDecl>, decls: seq<ServiceDecl>, k: nat)
    requires FirstComeStage(n, s, decls, k)
    ensures FirstComeStage(n, s, AssignFrom(decls, k), |s|)
    decreases |s| - k
  {
    if k < |s| {
      FirstComeStep(n, s, decls, k);
      FirstComeFinish(n, s, AssignAt(decls, k), k + 1);
    }
  }

  /**
   * Services declared without identity whose types share the simple name `n`
   * (one class or several) get n, n_1, n_2, ... in declaration order.
   */
  lemma FirstComeOrder(n: string, s: seq<ServiceDecl>)
    requires forall j :: 0 <= j < |s| ==> s[j].serviceType.simpleName == n && s[j].identity.None?
    ensures |AssignIdentities(s)| == |s|
    ensures forall j :: 0 <= j < |s| ==>
              AssignIdentities(s)[j] == ServiceDecl(s[j].serviceType, Some(Candidate(n, j)))
  {
    FirstComeFinish(n, s, s, 0);
  }
}
