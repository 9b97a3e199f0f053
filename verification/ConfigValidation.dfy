/**
 The configuration validator (clusterloader2/api/validation.go) and the tuning set factory
 that relies on it (clusterloader2/pkg/tuningset/simple_tuning_set_factory.go).
 */
module ConfigValidation {
  import opened Common
  import opened Wrappers

  // ----- The configuration (clusterloader2/api/types.go) -----

  datatype QPSLoad = QPSLoad(qps: real)
  datatype RandomizedLoad = RandomizedLoad(averageQps: real)
  datatype SteppedLoad = SteppedLoad(burstSize: int, stepDelay: int)
  datatype TimeLimitedLoad = TimeLimitedLoad(timeLimit: int)
  datatype RandomizedTimeLimitedLoad = RandomizedTimeLimitedLoad(timeLimit: int)
  datatype ParallelismLimitedLoad = ParallelismLimitedLoad(parallelismLimit: int)
  datatype GlobalQPSLoad = GlobalQPSLoad(qps: real, burst: int)
  datatype PoissonLoad = PoissonLoad(expectedActionsPerSecond: real)

  datatype TuningSet = TuningSet(
    name: string,
    qpsLoad: Option<QPSLoad>,
    randomizedLoad: Option<RandomizedLoad>,
    steppedLoad: Option<SteppedLoad>,
    timeLimitedLoad: Option<TimeLimitedLoad>,
    randomizedTimeLimitedLoad: Option<RandomizedTimeLimitedLoad>,
    parallelismLimitedLoad: Option<ParallelismLimitedLoad>,
    globalQPSLoad: Option<GlobalQPSLoad>,
    poissonLoad: Option<PoissonLoad>)

  datatype NamespaceRange = NamespaceRange(min: int, max: int)
  datatype Object = Object(basename: string, objectTemplatePath: string)
  datatype Phase = Phase(
    namespaceRange: Option<NamespaceRange>,
    namespaceList: Option<seq<string>>,
    replicasPerNamespace: int,
    tuningSet: string,
    objectBundle: seq<Object>)
  datatype Measurement = Measurement(methodName: string, identifier: string, instances: nat)
  datatype Step = Step(phases: seq<Phase>, measurements: seq<Measurement>)
  datatype Dependency = Dependency(name: string, methodName: string, timeout: int)
  datatype Config = Config(
    automanagedNamespaces: int,
    namespaceNumber: int,
    dependencies: seq<Dependency>,
    tuningSets: seq<TuningSet>,
    steps: seq<Step>)

  /** What the validator asks of the world around it. */
  datatype Environment = Environment(
    nameErrors: string -> nat,
    fileExists: string -> bool,
    dependencies: set<string>,
    measurements: set<string>)

  // ----- Errors -----

  datatype Segment = Child(name: string) | Index(i: nat)
  type Path = seq<Segment>
  datatype Kind = Invalid | Required | Forbidden
  datatype Error = Error(kind: Kind, path: Path)

  function Under(path: Path, name: string): Path {
    path + [Child(name)]
  }

  function At(path: Path, name: string, i: nat): Path {
    path + [Child(name), Index(i)]
  }

  // ----- What is well-formed -----

  datatype LoadType =
    | Qps | Randomized | Stepped | TimeLimited | RandomizedTimeLimited | ParallelismLimited | GlobalQps | Poisson

  predicate Has(ts: TuningSet, t: LoadType) {
    match t
    case Qps => ts.qpsLoad.Some?
    case Randomized => ts.randomizedLoad.Some?
    case Stepped => ts.steppedLoad.Some?
    case TimeLimited => ts.timeLimitedLoad.Some?
    case RandomizedTimeLimited => ts.randomizedTimeLimitedLoad.Some?
    case ParallelismLimited => ts.parallelismLimitedLoad.Some?
    case GlobalQps => ts.globalQPSLoad.Some?
    case Poisson => ts.poissonLoad.Some?
  }

  /** Every rate, size and limit of the load is positive. The delay after a burst may be anything: the executor does not
      wait for one that is not positive. */
  predicate IsPositive(ts: TuningSet, t: LoadType)
    requires Has(ts, t)
  {
    match t
    case Qps => ts.qpsLoad.value.qps > 0.0
    case Randomized => ts.randomizedLoad.value.averageQps > 0.0
    case Stepped => ts.steppedLoad.value.burstSize > 0
    case TimeLimited => ts.timeLimitedLoad.value.timeLimit > 0
    case RandomizedTimeLimited => ts.randomizedTimeLimitedLoad.value.timeLimit > 0
    case ParallelismLimited => ts.parallelismLimitedLoad.value.parallelismLimit > 0
    case GlobalQps => ts.globalQPSLoad.value.qps > 0.0 && ts.globalQPSLoad.value.burst > 0
    case Poisson => ts.poissonLoad.value.expectedActionsPerSecond > 0.0
  }

  /** Exactly one load is given, and it is positive. */
  ghost predicate TuningSetOk(ts: TuningSet) {
    exists t :: Has(ts, t) && IsPositive(ts, t) && forall t' :: Has(ts, t') ==> t' == t
  }

  predicate DependencyOk(env: Environment, d: Dependency) {
    d.name != "" && d.timeout >= 0 && d.methodName != "" && d.methodName in env.dependencies
  }

  predicate ObjectOk(env: Environment, o: Object) {
    env.nameErrors(o.basename) == 0 && env.fileExists(o.objectTemplatePath)
  }

  ghost predicate PhaseOk(env: Environment, tuningSets: seq<TuningSet>, p: Phase) {
    (p.namespaceList.None? || p.namespaceRange.None?) &&
    (p.namespaceRange.Some? ==> 0 <= p.namespaceRange.value.min <= p.namespaceRange.value.max) &&
    p.replicasPerNamespace >= 0 &&
    (forall o :: o in p.objectBundle ==> ObjectOk(env, o)) &&
    (p.tuningSet != "" ==> Declared(tuningSets, p.tuningSet))
  }

  predicate MeasurementOk(env: Environment, m: Measurement) {
    (m.instances == 0 <==> m.identifier != "") && m.methodName != "" && m.methodName in env.measurements
  }

  /** A step consists of phases or of measurements, but not of both. */
  ghost predicate StepOk(env: Environment, tuningSets: seq<TuningSet>, s: Step) {
    (s.phases == [] <==> s.measurements != []) &&
    (forall p :: p in s.phases ==> PhaseOk(env, tuningSets, p)) &&
    (forall m :: m in s.measurements ==> MeasurementOk(env, m))
  }

  ghost predicate Declared(tuningSets: seq<TuningSet>, name: string) {
    exists j :: 0 <= j < |tuningSets| && tuningSets[j].name == name
  }

  ghost predicate WellFormed(env: Environment, c: Config) {
    c.automanagedNamespaces >= 0 && c.namespaceNumber > 0 && c.steps != [] &&
    (forall d :: d in c.dependencies ==> DependencyOk(env, d)) &&
    (forall ts :: ts in c.tuningSets ==> TuningSetOk(ts)) &&
    (forall s :: s in c.steps ==> StepOk(env, c.tuningSets, s))
  }

  // ----- Which error is reported where -----

  /** The errors in the load of type `t`. */
  ghost predicate LoadError(ts: TuningSet, t: LoadType, path: Path, e: Error) {
    Has(ts, t) && !IsPositive(ts, t) && e.kind == Invalid &&
    match t
    case Qps => e.path == Under(Under(path, "qpsLoad"), "qps")
    case Randomized => e.path == Under(Under(path, "randomizedLoad"), "averageQps")
    case Stepped => e.path == Under(Under(path, "steppedLoad"), "burstSize")
    case TimeLimited => e.path == Under(Under(path, "timeLimitedLoad"), "timeLimit")
    case RandomizedTimeLimited => e.path == Under(Under(path, "randomizedTimeLimitedLoad"), "timeLimit")
    case ParallelismLimited => e.path == Under(Under(path, "parallelismLimitedLoad"), "parallelismLimit")
    case GlobalQps =>
      (ts.globalQPSLoad.value.qps <= 0.0 && e.path == Under(Under(path, "globalQPSLoad"), "qps")) ||
      (ts.globalQPSLoad.value.burst <= 0 && e.path == Under(Under(path, "globalQPSLoad"), "burst"))
    case Poisson => e.path == Under(Under(path, "poissonLoad"), "expectedActionsPerSecond")
  }

  ghost predicate HasExactlyOne(ts: TuningSet) {
    exists t :: Has(ts, t) && forall t' :: Has(ts, t') ==> t' == t
  }

  ghost predicate TuningSetError(ts: TuningSet, path: Path, e: Error) {
    (exists t :: LoadError(ts, t, path, e)) || (!HasExactlyOne(ts) && e == Error(Forbidden, path))
  }

  predicate MethodError(registered: set<string>, name: string, path: Path, e: Error) {
    (name == "" && e == Error(Required, path)) || (name !in registered && e == Error(Invalid, path))
  }

  predicate DependencyError(env: Environment, d: Dependency, path: Path, e: Error) {
    (d.name == "" && e == Error(Required, Under(path, "name"))) ||
    (d.timeout < 0 && e == Error(Invalid, Under(path, "timeout"))) ||
    MethodError(env.dependencies, d.methodName, Under(path, "method"), e)
  }

  predicate ObjectError(env: Environment, o: Object, path: Path, e: Error) {
    (env.nameErrors(o.basename) > 0 && e == Error(Invalid, Under(path, "basename"))) ||
    (!env.fileExists(o.objectTemplatePath) && e == Error(Invalid, Under(path, "objectTemplatePath")))
  }

  predicate NamespaceRangeError(nr: NamespaceRange, path: Path, e: Error) {
    (nr.min < 0 && e == Error(Invalid, Under(path, "min"))) ||
    (nr.max < nr.min && e == Error(Invalid, Under(path, "max")))
  }

  ghost predicate PhaseError(env: Environment, p: Phase, path: Path, e: Error) {
    (p.namespaceList.Some? && p.namespaceRange.Some? && e == Error(Forbidden, path)) ||
    (p.namespaceRange.Some? && NamespaceRangeError(p.namespaceRange.value, Under(path, "namespaceRange"), e)) ||
    (p.replicasPerNamespace < 0 && e == Error(Invalid, Under(path, "replicasPerNamespace"))) ||
    exists i :: 0 <= i < |p.objectBundle| && ObjectError(env, p.objectBundle[i], At(path, "objectBundle", i), e)
  }

  predicate MeasurementError(env: Environment, m: Measurement, path: Path, e: Error) {
    ((m.instances == 0 <==> m.identifier == "") && e == Error(Invalid, Under(path, "Identifier"))) ||
    MethodError(env.measurements, m.methodName, Under(path, "method"), e)
  }

  ghost predicate StepError(env: Environment, s: Step, path: Path, e: Error) {
    (exists i :: 0 <= i < |s.phases| && PhaseError(env, s.phases[i], At(path, "phases", i), e)) ||
    (exists i :: 0 <= i < |s.measurements| &&
      MeasurementError(env, s.measurements[i], At(path, "measurements", i), e)) ||
    ((s.phases == [] <==> s.measurements == []) && e == Error(Invalid, Under(path, "measurements")))
  }

  /** A phase refers to a tuning set that is not declared. */
  ghost predicate UndeclaredError(s: Step, tuningSets: seq<TuningSet>, path: Path, e: Error) {
    exists i :: 0 <= i < |s.phases| && IsUndeclared(s.phases[i], tuningSets) &&
      e == Error(Invalid, Under(At(path, "phases", i), "tuningSet"))
  }

  ghost predicate IsUndeclared(p: Phase, tuningSets: seq<TuningSet>) {
    p.tuningSet != "" && !Declared(tuningSets, p.tuningSet)
  }

  ghost predicate ConfigError(env: Environment, c: Config, e: Error) {
    (c.automanagedNamespaces < 0 && e == Error(Invalid, Under([], "automanagedNamespaces"))) ||
    (c.namespaceNumber <= 0 && e == Error(Invalid, Under(Under([], "namespace"), "number"))) ||
    (exists i :: 0 <= i < |c.dependencies| && DependencyError(env, c.dependencies[i], At([], "dependencies", i), e)) ||
    (exists i :: 0 <= i < |c.tuningSets| && TuningSetError(c.tuningSets[i], At([], "tuningSets", i), e)) ||
    (c.steps == [] && e == Error(Invalid, Under([], "steps"))) ||
    (exists i :: 0 <= i < |c.steps| && StepError(env, c.steps[i], At([], "steps", i), e)) ||
    (exists i :: 0 <= i < |c.steps| && UndeclaredError(c.steps[i], c.tuningSets, At([], "steps", i), e))
  }

  // ----- No error is reported exactly when the configuration is well-formed -----

  lemma TuningSetClean(ts: TuningSet, path: Path)
    ensures (forall e :: !TuningSetError(ts, path, e)) <==> TuningSetOk(ts)
  {
    if TuningSetOk(ts) {
      forall e ensures !TuningSetError(ts, path, e) {
      }
    } else {
      if !HasExactlyOne(ts) {
        assert TuningSetError(ts, path, Error(Forbidden, path));
      } else {
        var t :| Has(ts, t) && forall t' :: Has(ts, t') ==> t' == t;
        var e := LoadErrorAt(ts, t, path);
        assert TuningSetError(ts, path, e);
      }
    }
  }

  lemma LoadErrorAt(ts: TuningSet, t: LoadType, path: Path) returns (e: Error)
    requires Has(ts, t) && !IsPositive(ts, t)
    ensures LoadError(ts, t, path, e)
  {
    match t
    case Qps => e := Error(Invalid, Under(Under(path, "qpsLoad"), "qps"));
    case Randomized => e := Error(Invalid, Under(Under(path, "randomizedLoad"), "averageQps"));
    case Stepped => e := Error(Invalid, Under(Under(path, "steppedLoad"), "burstSize"));
    case TimeLimited => e := Error(Invalid, Under(Under(path, "timeLimitedLoad"), "timeLimit"));
    case RandomizedTimeLimited => e := Error(Invalid, Under(Under(path, "randomizedTimeLimitedLoad"), "timeLimit"));
    case ParallelismLimited => e := Error(Invalid, Under(Under(path, "parallelismLimitedLoad"), "parallelismLimit"));
    case GlobalQps =>
      var field := if ts.globalQPSLoad.value.qps <= 0.0 then "qps" else "burst";
      e := Error(Invalid, Under(Under(path, "globalQPSLoad"), field));
    case Poisson => e := Error(Invalid, Under(Under(path, "poissonLoad"), "expectedActionsPerSecond"));
  }

  lemma DependencyClean(env: Environment, d: Dependency, path: Path)
    ensures (forall e :: !DependencyError(env, d, path, e)) <==> DependencyOk(env, d)
  {
    hide Under;
    assert DependencyError(env, d, path, Error(Required, Under(path, "name"))) <== d.name == "";
    assert DependencyError(env, d, path, Error(Invalid, Under(path, "timeout"))) <== d.timeout < 0;
    assert DependencyError(env, d, path, Error(Required, Under(path, "method"))) <== d.methodName == "";
    assert DependencyError(env, d, path, Error(Invalid, Under(path, "method"))) <== d.methodName !in env.dependencies;
  }

  lemma MeasurementClean(env: Environment, m: Measurement, path: Path)
    ensures (forall e :: !MeasurementError(env, m, path, e)) <==> MeasurementOk(env, m)
  {
    hide Under;
    assert MeasurementError(env, m, path, Error(Invalid, Under(path, "Identifier"))) <==
      (m.instances == 0 <==> m.identifier == "");
    assert MeasurementError(env, m, path, Error(Required, Under(path, "method"))) <== m.methodName == "";
    assert MeasurementError(env, m, path, Error(Invalid, Under(path, "method"))) <== m.methodName !in env.measurements;
  }

  lemma ObjectClean(env: Environment, o: Object, path: Path)
    ensures (forall e :: !ObjectError(env, o, path, e)) <==> ObjectOk(env, o)
  {
    hide Under;
    assert ObjectError(env, o, path, Error(Invalid, Under(path, "basename"))) <== env.nameErrors(o.basename) > 0;
    assert !env.fileExists(o.objectTemplatePath) ==>
      ObjectError(env, o, path, Error(Invalid, Under(path, "objectTemplatePath")));
  }

  lemma NamespaceRangeClean(nr: NamespaceRange, path: Path)
    ensures (forall e :: !NamespaceRangeError(nr, path, e)) <==> 0 <= nr.min <= nr.max
  {
    hide Under;
    assert NamespaceRangeError(nr, path, Error(Invalid, Under(path, "min"))) <== nr.min < 0;
    assert NamespaceRangeError(nr, path, Error(Invalid, Under(path, "max"))) <== nr.max < nr.min;
  }

  /** A phase is fine but for the tuning set it names. */
  ghost predicate PhaseOkAlone(env: Environment, p: Phase) {
    (p.namespaceList.None? || p.namespaceRange.None?) &&
    (p.namespaceRange.Some? ==> 0 <= p.namespaceRange.value.min <= p.namespaceRange.value.max) &&
    p.replicasPerNamespace >= 0 &&
    (forall o :: o in p.objectBundle ==> ObjectOk(env, o))
  }

  lemma PhaseClean(env: Environment, p: Phase, path: Path)
    ensures (forall e :: !PhaseError(env, p, path, e)) <==> PhaseOkAlone(env, p)
  {
    hide Under, At, ObjectError, ObjectOk, NamespaceRangeError;
    if PhaseOkAlone(env, p) {
      forall e ensures !PhaseError(env, p, path, e) {
        if p.namespaceRange.Some? {
          NamespaceRangeClean(p.namespaceRange.value, Under(path, "namespaceRange"));
        }
        forall i | 0 <= i < |p.objectBundle|
          ensures !ObjectError(env, p.objectBundle[i], At(path, "objectBundle", i), e)
        {
          ObjectClean(env, p.objectBundle[i], At(path, "objectBundle", i));
        }
      }
    }
    if forall e :: !PhaseError(env, p, path, e) {
      assert !PhaseError(env, p, path, Error(Forbidden, path));
      assert !PhaseError(env, p, path, Error(Invalid, Under(path, "replicasPerNamespace")));
      if p.namespaceRange.Some? {
        NamespaceRangeClean(p.namespaceRange.value, Under(path, "namespaceRange"));
        forall e ensures !NamespaceRangeError(p.namespaceRange.value, Under(path, "namespaceRange"), e) {
          assert !PhaseError(env, p, path, e);
        }
      }
      forall o | o in p.objectBundle ensures ObjectOk(env, o) {
        var i :| 0 <= i < |p.objectBundle| && p.objectBundle[i] == o;
        ObjectClean(env, o, At(path, "objectBundle", i));
        forall e ensures !ObjectError(env, o, At(path, "objectBundle", i), e) {
          assert !PhaseError(env, p, path, e);
        }
      }
    }
  }

  ghost predicate StepOkAlone(env: Environment, s: Step) {
    (s.phases == [] <==> s.measurements != []) &&
    (forall p :: p in s.phases ==> PhaseOkAlone(env, p)) &&
    (forall m :: m in s.measurements ==> MeasurementOk(env, m))
  }

  lemma StepClean(env: Environment, s: Step, path: Path)
    ensures (forall e :: !StepError(env, s, path, e)) <==> StepOkAlone(env, s)
  {
    hide Under, At, PhaseError, PhaseOkAlone, MeasurementError, MeasurementOk;
    if StepOkAlone(env, s) {
      forall e ensures !StepError(env, s, path, e) {
        forall i | 0 <= i < |s.phases| ensures !PhaseError(env, s.phases[i], At(path, "phases", i), e) {
          PhaseClean(env, s.phases[i], At(path, "phases", i));
        }
        forall i | 0 <= i < |s.measurements|
          ensures !MeasurementError(env, s.measurements[i], At(path, "measurements", i), e)
        {
          MeasurementClean(env, s.measurements[i], At(path, "measurements", i));
        }
      }
    }
    if forall e :: !StepError(env, s, path, e) {
      assert !StepError(env, s, path, Error(Invalid, Under(path, "measurements")));
      forall p | p in s.phases ensures PhaseOkAlone(env, p) {
        var i :| 0 <= i < |s.phases| && s.phases[i] == p;
        PhaseClean(env, p, At(path, "phases", i));
        forall e ensures !PhaseError(env, p, At(path, "phases", i), e) {
          assert !StepError(env, s, path, e);
        }
      }
      forall m | m in s.measurements ensures MeasurementOk(env, m) {
        var i :| 0 <= i < |s.measurements| && s.measurements[i] == m;
        MeasurementClean(env, m, At(path, "measurements", i));
        forall e ensures !MeasurementError(env, m, At(path, "measurements", i), e) {
          assert !StepError(env, s, path, e);
        }
      }
    }
  }

  lemma UndeclaredClean(s: Step, tuningSets: seq<TuningSet>, path: Path)
    ensures (forall e :: !UndeclaredError(s, tuningSets, path, e)) <==>
            forall p :: p in s.phases ==> !IsUndeclared(p, tuningSets)
  {
    hide Under, At, IsUndeclared;
    if forall e :: !UndeclaredError(s, tuningSets, path, e) {
      forall p | p in s.phases ensures !IsUndeclared(p, tuningSets) {
        var i :| 0 <= i < |s.phases| && s.phases[i] == p;
        assert !UndeclaredError(s, tuningSets, path, Error(Invalid, Under(At(path, "phases", i), "tuningSet")));
      }
    }
  }

  lemma StepOkSplits(env: Environment, tuningSets: seq<TuningSet>, s: Step)
    ensures StepOk(env, tuningSets, s) <==>
            StepOkAlone(env, s) && forall p :: p in s.phases ==> !IsUndeclared(p, tuningSets)
  {
    hide MeasurementOk, ObjectOk, Declared;
    assert forall p :: PhaseOk(env, tuningSets, p) <==> PhaseOkAlone(env, p) && !IsUndeclared(p, tuningSets);
  }

  /** The validator finds nothing to report exactly in the well-formed configurations. */
  lemma NoErrorExactlyWhenWellFormed(env: Environment, c: Config)
    ensures (forall e :: !ConfigError(env, c, e)) <==> WellFormed(env, c)
  {
    hide Under, At, DependencyError, DependencyOk, TuningSetError, TuningSetOk, StepError, StepOk, StepOkAlone,
      UndeclaredError, IsUndeclared;
    if WellFormed(env, c) {
      forall e ensures !ConfigError(env, c, e) {
        forall i | 0 <= i < |c.dependencies|
          ensures !DependencyError(env, c.dependencies[i], At([], "dependencies", i), e)
        {
          DependencyClean(env, c.dependencies[i], At([], "dependencies", i));
        }
        forall i | 0 <= i < |c.tuningSets| ensures !TuningSetError(c.tuningSets[i], At([], "tuningSets", i), e) {
          TuningSetClean(c.tuningSets[i], At([], "tuningSets", i));
        }
        forall i | 0 <= i < |c.steps|
          ensures !StepError(env, c.steps[i], At([], "steps", i), e)
          ensures !UndeclaredError(c.steps[i], c.tuningSets, At([], "steps", i), e)
        {
          StepOkSplits(env, c.tuningSets, c.steps[i]);
          StepClean(env, c.steps[i], At([], "steps", i));
          UndeclaredClean(c.steps[i], c.tuningSets, At([], "steps", i));
        }
      }
    }
    if forall e :: !ConfigError(env, c, e) {
      ScalarsOk(env, c);
      forall d | d in c.dependencies ensures DependencyOk(env, d) {
        var i :| 0 <= i < |c.dependencies| && c.dependencies[i] == d;
        DependencyClean(env, d, At([], "dependencies", i));
        forall e ensures !DependencyError(env, d, At([], "dependencies", i), e) {
          assert !ConfigError(env, c, e);
        }
      }
      forall ts | ts in c.tuningSets ensures TuningSetOk(ts) {
        var i :| 0 <= i < |c.tuningSets| && c.tuningSets[i] == ts;
        TuningSetClean(ts, At([], "tuningSets", i));
        forall e ensures !TuningSetError(ts, At([], "tuningSets", i), e) {
          assert !ConfigError(env, c, e);
        }
      }
      forall s | s in c.steps ensures StepOk(env, c.tuningSets, s) {
        var i :| 0 <= i < |c.steps| && c.steps[i] == s;
        StepOkSplits(env, c.tuningSets, s);
        StepClean(env, s, At([], "steps", i));
        UndeclaredClean(s, c.tuningSets, At([], "steps", i));
        forall e
          ensures !StepError(env, s, At([], "steps", i), e) && !UndeclaredError(s, c.tuningSets, At([], "steps", i), e)
        {
          assert !ConfigError(env, c, e);
        }
      }
    }
  }

  lemma ScalarsOk(env: Environment, c: Config)
    requires forall e :: !ConfigError(env, c, e)
    ensures c.automanagedNamespaces >= 0 && c.namespaceNumber > 0 && c.steps != []
  {
    assert !ConfigError(env, c, Error(Invalid, Under([], "automanagedNamespaces")));
    assert !ConfigError(env, c, Error(Invalid, Under(Under([], "namespace"), "number")));
    assert !ConfigError(env, c, Error(Invalid, Under([], "steps")));
  }

  // ----- What breaking each rule reports, and where -----

  function PhasePath(i: nat, k: nat): Path {
    [Child("steps"), Index(i), Child("phases"), Index(k)]
  }

  function MeasurementPath(i: nat, k: nat): Path {
    [Child("steps"), Index(i), Child("measurements"), Index(k)]
  }

  lemma PathsOfStep(i: nat, k: nat)
    ensures At(At([], "steps", i), "phases", k) == PhasePath(i, k)
    ensures At(At([], "steps", i), "measurements", k) == MeasurementPath(i, k)
  {
  }

  lemma PathBelow(path: Path, name: string, field: string, i: nat)
    ensures Under(path, field) == path + [Child(field)]
    ensures Under(Under(path, name), field) == path + [Child(name), Child(field)]
    ensures Under(At(path, name, i), field) == path + [Child(name), Index(i), Child(field)]
  {
  }

  lemma StepReports(env: Environment, c: Config, i: nat, k: nat, e: Error)
    requires i < |c.steps|
    ensures k < |c.steps[i].phases| && PhaseError(env, c.steps[i].phases[k], PhasePath(i, k), e) ==>
            ConfigError(env, c, e)
    ensures k < |c.steps[i].measurements| &&
              MeasurementError(env, c.steps[i].measurements[k], MeasurementPath(i, k), e) ==>
            ConfigError(env, c, e)
    ensures k < |c.steps[i].phases| && IsUndeclared(c.steps[i].phases[k], c.tuningSets) &&
              e == Error(Invalid, Under(PhasePath(i, k), "tuningSet")) ==>
            ConfigError(env, c, e)
  {
    PathsOfStep(i, k);
    hide At, Under, PhasePath, MeasurementPath, PhaseError, MeasurementError, IsUndeclared, DependencyError,
      TuningSetError;
    var s, path := c.steps[i], At([], "steps", i);
    assert StepError(env, s, path, e) ==> ConfigError(env, c, e);
    assert UndeclaredError(s, c.tuningSets, path, e) ==> ConfigError(env, c, e);
  }

  /** Each rule for a phase, with the place of the error when it is broken. */
  lemma PhaseRules(env: Environment, c: Config, i: nat, k: nat)
    requires i < |c.steps| && k < |c.steps[i].phases|
    ensures
      var p, path := c.steps[i].phases[k], PhasePath(i, k);
      && (p.namespaceList.Some? && p.namespaceRange.Some? ==> ConfigError(env, c, Error(Forbidden, path)))
      && (p.namespaceRange.Some? && p.namespaceRange.value.min < 0 ==>
            ConfigError(env, c, Error(Invalid, path + [Child("namespaceRange"), Child("min")])))
      && (p.namespaceRange.Some? && p.namespaceRange.value.max < p.namespaceRange.value.min ==>
            ConfigError(env, c, Error(Invalid, path + [Child("namespaceRange"), Child("max")])))
      && (p.replicasPerNamespace < 0 ==> ConfigError(env, c, Error(Invalid, path + [Child("replicasPerNamespace")])))
      && (p.tuningSet != "" && (forall t :: t in c.tuningSets ==> t.name != p.tuningSet) ==>
            ConfigError(env, c, Error(Invalid, path + [Child("tuningSet")])))
  {
    hide At, Under, ConfigError, PhasePath;
    var path := PhasePath(i, k);
    PathBelow(path, "namespaceRange", "min", 0);
    PathBelow(path, "namespaceRange", "max", 0);
    PathBelow(path, "", "replicasPerNamespace", 0);
    PathBelow(path, "", "tuningSet", 0);
    StepReports(env, c, i, k, Error(Forbidden, path));
    StepReports(env, c, i, k, Error(Invalid, path + [Child("namespaceRange"), Child("min")]));
    StepReports(env, c, i, k, Error(Invalid, path + [Child("namespaceRange"), Child("max")]));
    StepReports(env, c, i, k, Error(Invalid, path + [Child("replicasPerNamespace")]));
    StepReports(env, c, i, k, Error(Invalid, path + [Child("tuningSet")]));
  }

  lemma ObjectRules(env: Environment, c: Config, i: nat, k: nat, n: nat)
    requires i < |c.steps| && k < |c.steps[i].phases| && n < |c.steps[i].phases[k].objectBundle|
    ensures
      var o, path := c.steps[i].phases[k].objectBundle[n], PhasePath(i, k) + [Child("objectBundle"), Index(n)];
      && (env.nameErrors(o.basename) > 0 ==> ConfigError(env, c, Error(Invalid, path + [Child("basename")])))
      && (!env.fileExists(o.objectTemplatePath) ==>
            ConfigError(env, c, Error(Invalid, path + [Child("objectTemplatePath")])))
  {
    hide Under, ConfigError, PhasePath;
    var o, path := c.steps[i].phases[k].objectBundle[n], At(PhasePath(i, k), "objectBundle", n);
    assert path == PhasePath(i, k) + [Child("objectBundle"), Index(n)];
    hide At;
    PathBelow(path, "", "basename", 0);
    PathBelow(path, "", "objectTemplatePath", 0);
    var name := Error(Invalid, path + [Child("basename")]);
    var template := Error(Invalid, path + [Child("objectTemplatePath")]);
    assert env.nameErrors(o.basename) > 0 ==> ObjectError(env, o, path, name);
    assert !env.fileExists(o.objectTemplatePath) ==> ObjectError(env, o, path, template);
    hide ObjectError;
    StepReports(env, c, i, k, name);
    StepReports(env, c, i, k, template);
  }

  lemma MeasurementRules(env: Environment, c: Config, i: nat, k: nat)
    requires i < |c.steps| && k < |c.steps[i].measurements|
    ensures
      var m, path := c.steps[i].measurements[k], MeasurementPath(i, k);
      && ((m.instances == 0) == (m.identifier == "") ==>
            ConfigError(env, c, Error(Invalid, path + [Child("Identifier")])))
      && (m.methodName == "" ==> ConfigError(env, c, Error(Required, path + [Child("method")])))
      && (m.methodName !in env.measurements ==> ConfigError(env, c, Error(Invalid, path + [Child("method")])))
  {
    hide At, Under, ConfigError, MeasurementPath;
    var path := MeasurementPath(i, k);
    PathBelow(path, "", "Identifier", 0);
    PathBelow(path, "", "method", 0);
    StepReports(env, c, i, k, Error(Invalid, path + [Child("Identifier")]));
    StepReports(env, c, i, k, Error(Required, path + [Child("method")]));
    StepReports(env, c, i, k, Error(Invalid, path + [Child("method")]));
  }

  lemma DependencyRules(env: Environment, c: Config, i: nat)
    requires i < |c.dependencies|
    ensures
      var d, path := c.dependencies[i], [Child("dependencies"), Index(i)];
      && (d.name == "" ==> ConfigError(env, c, Error(Required, path + [Child("name")])))
      && (d.timeout < 0 ==> ConfigError(env, c, Error(Invalid, path + [Child("timeout")])))
      && (d.methodName == "" ==> ConfigError(env, c, Error(Required, path + [Child("method")])))
      && (d.methodName !in env.dependencies ==> ConfigError(env, c, Error(Invalid, path + [Child("method")])))
  {
    var d, path := c.dependencies[i], At([], "dependencies", i);
    assert path == [Child("dependencies"), Index(i)];
    hide At, Under, StepError, UndeclaredError, TuningSetError;
    PathBelow(path, "", "name", 0);
    PathBelow(path, "", "timeout", 0);
    PathBelow(path, "", "method", 0);
    assert forall e :: DependencyError(env, d, path, e) ==> ConfigError(env, c, e);
    hide ConfigError;
  }

  lemma TuningSetReports(env: Environment, c: Config, i: nat, e: Error)
    requires i < |c.tuningSets|
    ensures TuningSetError(c.tuningSets[i], [Child("tuningSets"), Index(i)], e) ==> ConfigError(env, c, e)
  {
    assert At([], "tuningSets", i) == [Child("tuningSets"), Index(i)];
    hide At, Under, StepError, UndeclaredError, DependencyError, TuningSetError;
  }

  /** What a tuning set gives for this field of this load is not positive. */
  predicate NotPositiveAt(ts: TuningSet, place: (string, string)) {
    || (place == ("qpsLoad", "qps") && ts.qpsLoad.Some? &&
        ts.qpsLoad.value.qps <= 0.0)
    || (place == ("randomizedLoad", "averageQps") && ts.randomizedLoad.Some? &&
        ts.randomizedLoad.value.averageQps <= 0.0)
    || (place == ("steppedLoad", "burstSize") && ts.steppedLoad.Some? &&
        ts.steppedLoad.value.burstSize <= 0)
    || (place == ("timeLimitedLoad", "timeLimit") && ts.timeLimitedLoad.Some? &&
        ts.timeLimitedLoad.value.timeLimit <= 0)
    || (place == ("randomizedTimeLimitedLoad", "timeLimit") && ts.randomizedTimeLimitedLoad.Some? &&
        ts.randomizedTimeLimitedLoad.value.timeLimit <= 0)
    || (place == ("parallelismLimitedLoad", "parallelismLimit") && ts.parallelismLimitedLoad.Some? &&
        ts.parallelismLimitedLoad.value.parallelismLimit <= 0)
    || (place == ("globalQPSLoad", "qps") && ts.globalQPSLoad.Some? &&
        ts.globalQPSLoad.value.qps <= 0.0)
    || (place == ("globalQPSLoad", "burst") && ts.globalQPSLoad.Some? &&
        ts.globalQPSLoad.value.burst <= 0)
    || (place == ("poissonLoad", "expectedActionsPerSecond") && ts.poissonLoad.Some? &&
        ts.poissonLoad.value.expectedActionsPerSecond <= 0.0)
  }

  lemma LoadWith(ts: TuningSet, place: (string, string), path: Path) returns (t: LoadType)
    requires NotPositiveAt(ts, place)
    ensures LoadError(ts, t, path, Error(Invalid, Under(Under(path, place.0), place.1)))
  {
    hide Under;
    if place.0 == "qpsLoad" {
      t := Qps;
    } else if place.0 == "randomizedLoad" {
      t := Randomized;
    } else if place.0 == "steppedLoad" {
      t := Stepped;
    } else if place.0 == "timeLimitedLoad" {
      t := TimeLimited;
    } else if place.0 == "randomizedTimeLimitedLoad" {
      t := RandomizedTimeLimited;
    } else if place.0 == "parallelismLimitedLoad" {
      t := ParallelismLimited;
    } else if place.0 == "globalQPSLoad" {
      t := GlobalQps;
    } else {
      t := Poisson;
    }
  }

  /** A tuning set without exactly one load is reported itself, and what is not positive at its place. */
  lemma TuningSetRules(env: Environment, c: Config, i: nat, place: (string, string))
    requires i < |c.tuningSets|
    ensures
      var ts, path := c.tuningSets[i], [Child("tuningSets"), Index(i)];
      && (!HasExactlyOne(ts) ==> ConfigError(env, c, Error(Forbidden, path)))
      && (NotPositiveAt(ts, place) ==> ConfigError(env, c, Error(Invalid, path + [Child(place.0), Child(place.1)])))
  {
    hide Under, ConfigError, LoadError, HasExactlyOne, NotPositiveAt;
    var ts, path := c.tuningSets[i], [Child("tuningSets"), Index(i)];
    TuningSetReports(env, c, i, Error(Forbidden, path));
    if NotPositiveAt(ts, place) {
      var t := LoadWith(ts, place, path);
      PathBelow(path, place.0, place.1, 0);
      TuningSetReports(env, c, i, Error(Invalid, path + [Child(place.0), Child(place.1)]));
    }
  }

  lemma StepRules(env: Environment, c: Config, i: nat)
    requires i < |c.steps|
    ensures (c.steps[i].phases == []) == (c.steps[i].measurements == []) ==>
      ConfigError(env, c, Error(Invalid, [Child("steps"), Index(i), Child("measurements")]))
  {
    var path := At([], "steps", i);
    PathBelow([], "steps", "measurements", i);
    assert [] + [Child("steps"), Index(i), Child("measurements")] == [Child("steps"), Index(i), Child("measurements")];
    var e := Error(Invalid, Under(path, "measurements"));
    hide At, Under, PhaseError, MeasurementError, UndeclaredError, DependencyError, TuningSetError;
    assert (c.steps[i].phases == []) == (c.steps[i].measurements == []) ==> StepError(env, c.steps[i], path, e);
  }

  lemma ConfigRules(env: Environment, c: Config)
    ensures c.automanagedNamespaces < 0 ==> ConfigError(env, c, Error(Invalid, [Child("automanagedNamespaces")]))
    ensures c.namespaceNumber <= 0 ==> ConfigError(env, c, Error(Invalid, [Child("namespace"), Child("number")]))
    ensures c.steps == [] ==> ConfigError(env, c, Error(Invalid, [Child("steps")]))
  {
    assert Under([], "automanagedNamespaces") == [Child("automanagedNamespaces")];
    assert Under(Under([], "namespace"), "number") == [Child("namespace"), Child("number")];
    assert Under([], "steps") == [Child("steps")];
    hide Under;
  }

  /** The least of everything is accepted: no replicas, a range of zero, no timeout, no automanaged namespaces. */
  lemma LeastIsAccepted(env: Environment, load: TuningSet)
    requires env.nameErrors("o") == 0 && env.fileExists("t") && "d" in env.dependencies && "m" in env.measurements
    requires load == TuningSet("l", None, None, Some(SteppedLoad(1, 0)), None, None, None, None, None)
    ensures
      var p := Phase(Some(NamespaceRange(0, 0)), None, 0, "l", [Object("o", "t")]);
      var q := Phase(None, Some([]), 0, "", []);
      var steps := [Step([p, q], []), Step([], [Measurement("m", "id", 0), Measurement("m", "", 1)])];
      WellFormed(env, Config(0, 1, [Dependency("d", "d", 0)], [load], steps))
  {
    assert Has(load, Stepped) && IsPositive(load, Stepped);
    assert Declared([load], "l") by { assert [load][0].name == "l"; }
  }

  // ----- The validators -----

  method ValidateQPSLoad(ql: QPSLoad, path: Path) returns (allErrs: seq<Error>)
    ensures forall e :: e in allErrs <==> ql.qps <= 0.0 && e == Error(Invalid, Under(path, "qps"))
  {
    allErrs := [];
    if ql.qps <= 0.0 {
      allErrs := allErrs + [Error(Invalid, Under(path, "qps"))];
    }
  }

  method ValidateRandomizedLoad(rl: RandomizedLoad, path: Path) returns (allErrs: seq<Error>)
    ensures forall e :: e in allErrs <==> rl.averageQps <= 0.0 && e == Error(Invalid, Under(path, "averageQps"))
  {
    allErrs := [];
    if rl.averageQps <= 0.0 {
      allErrs := allErrs + [Error(Invalid, Under(path, "averageQps"))];
    }
  }

  method ValidateSteppedLoad(sl: SteppedLoad, path: Path) returns (allErrs: seq<Error>)
    ensures forall e :: e in allErrs <==> sl.burstSize <= 0 && e == Error(Invalid, Under(path, "burstSize"))
  {
    allErrs := [];
    if sl.burstSize <= 0 {
      allErrs := allErrs + [Error(Invalid, Under(path, "burstSize"))];
    }
  }

  method ValidateTimeLimitedLoad(tll: TimeLimitedLoad, path: Path) returns (allErrs: seq<Error>)
    ensures forall e :: e in allErrs <==> tll.timeLimit <= 0 && e == Error(Invalid, Under(path, "timeLimit"))
  {
    allErrs := [];
    if tll.timeLimit <= 0 {
      allErrs := allErrs + [Error(Invalid, Under(path, "timeLimit"))];
    }
  }

  method ValidateRandomizedTimeLimitedLoad(rtl: RandomizedTimeLimitedLoad, path: Path) returns (allErrs: seq<Error>)
    ensures forall e :: e in allErrs <==> rtl.timeLimit <= 0 && e == Error(Invalid, Under(path, "timeLimit"))
  {
    allErrs := [];
    if rtl.timeLimit <= 0 {
      allErrs := allErrs + [Error(Invalid, Under(path, "timeLimit"))];
    }
  }

  method ValidateParallelismLimitedLoad(ptl: ParallelismLimitedLoad, path: Path) returns (allErrs: seq<Error>)
    ensures forall e :: e in allErrs <==>
      ptl.parallelismLimit <= 0 && e == Error(Invalid, Under(path, "parallelismLimit"))
  {
    allErrs := [];
    if ptl.parallelismLimit <= 0 {
      allErrs := allErrs + [Error(Invalid, Under(path, "parallelismLimit"))];
    }
  }

  method ValidateGlobalQPSLoad(gl: GlobalQPSLoad, path: Path) returns (allErrs: seq<Error>)
    ensures forall e :: e in allErrs <==>
      (gl.qps <= 0.0 && e == Error(Invalid, Under(path, "qps"))) ||
      (gl.burst <= 0 && e == Error(Invalid, Under(path, "burst")))
  {
    allErrs := [];
    if gl.qps <= 0.0 {
      allErrs := allErrs + [Error(Invalid, Under(path, "qps"))];
    }
    if gl.burst <= 0 {
      allErrs := allErrs + [Error(Invalid, Under(path, "burst"))];
    }
  }

  method ValidatePoissonLoad(rl: PoissonLoad, path: Path) returns (allErrs: seq<Error>)
    ensures forall e :: e in allErrs <==>
      rl.expectedActionsPerSecond <= 0.0 && e == Error(Invalid, Under(path, "expectedActionsPerSecond"))
  {
    allErrs := [];
    if rl.expectedActionsPerSecond <= 0.0 {
      allErrs := allErrs + [Error(Invalid, Under(path, "expectedActionsPerSecond"))];
    }
  }

  /** The part of validateTuningSet that deals with the loads of one type. */
  method ValidateLoad(ts: TuningSet, t: LoadType, path: Path) returns (number: nat, allErrs: seq<Error>)
    ensures number == if Has(ts, t) then 1 else 0
    ensures forall e :: e in allErrs <==> LoadError(ts, t, path, e)
  {
    hide Under;
    if !Has(ts, t) {
      return 0, [];
    }
    number := 1;
    match t
    case Qps =>
      allErrs := ValidateQPSLoad(ts.qpsLoad.value, Under(path, "qpsLoad"));
    case Randomized =>
      allErrs := ValidateRandomizedLoad(ts.randomizedLoad.value, Under(path, "randomizedLoad"));
    case Stepped =>
      allErrs := ValidateSteppedLoad(ts.steppedLoad.value, Under(path, "steppedLoad"));
    case TimeLimited =>
      allErrs := ValidateTimeLimitedLoad(ts.timeLimitedLoad.value, Under(path, "timeLimitedLoad"));
    case RandomizedTimeLimited =>
      allErrs := ValidateRandomizedTimeLimitedLoad(ts.randomizedTimeLimitedLoad.value,
        Under(path, "randomizedTimeLimitedLoad"));
    case ParallelismLimited =>
      allErrs := ValidateParallelismLimitedLoad(ts.parallelismLimitedLoad.value, Under(path, "parallelismLimitedLoad"));
    case GlobalQps =>
      allErrs := ValidateGlobalQPSLoad(ts.globalQPSLoad.value, Under(path, "globalQPSLoad"));
    case Poisson =>
      allErrs := ValidatePoissonLoad(ts.poissonLoad.value, Under(path, "poissonLoad"));
  }

  function LoadCount(ts: TuningSet): nat {
    One(Has(ts, Qps)) + One(Has(ts, Randomized)) + One(Has(ts, Stepped)) + One(Has(ts, TimeLimited)) +
    One(Has(ts, RandomizedTimeLimited)) + One(Has(ts, ParallelismLimited)) + One(Has(ts, GlobalQps)) +
      One(Has(ts, Poisson))
  }

  lemma LoadCountIsOne(ts: TuningSet)
    ensures LoadCount(ts) == 1 <==> HasExactlyOne(ts)
  {
    hide Has, LoadCount;
    if HasExactlyOne(ts) {
      var t :| Has(ts, t) && forall t' :: Has(ts, t') ==> t' == t;
      OneLoadCountsOnce(ts, t);
    }
    if LoadCount(ts) == 1 {
      var t := CountedLoad(ts);
      forall t' | Has(ts, t') ensures t' == t {
        if t' != t {
          TwoLoadsCountTwice(ts, t, t');
        }
      }
    }
  }

  lemma OneLoadCountsOnce(ts: TuningSet, t: LoadType)
    requires Has(ts, t) && forall t' :: Has(ts, t') ==> t' == t
    ensures LoadCount(ts) == 1
  {
    hide Has;
    match t case Qps => case Randomized => case Stepped => case TimeLimited =>
            case RandomizedTimeLimited => case ParallelismLimited => case GlobalQps => case Poisson =>
  }

  lemma CountedLoad(ts: TuningSet) returns (t: LoadType)
    requires LoadCount(ts) == 1
    ensures Has(ts, t)
  {
    hide Has;
    t := if Has(ts, Qps) then Qps else if Has(ts, Randomized) then Randomized
         else if Has(ts, Stepped) then Stepped else if Has(ts, TimeLimited) then TimeLimited
         else if Has(ts, RandomizedTimeLimited) then RandomizedTimeLimited
         else if Has(ts, ParallelismLimited) then ParallelismLimited
         else if Has(ts, GlobalQps) then GlobalQps else Poisson;
  }

  lemma TwoLoadsCountTwice(ts: TuningSet, t: LoadType, t': LoadType)
    requires Has(ts, t) && Has(ts, t') && t != t'
    ensures LoadCount(ts) >= 2
  {
    hide Has;
    match t case Qps => case Randomized => case Stepped => case TimeLimited =>
            case RandomizedTimeLimited => case ParallelismLimited => case GlobalQps => case Poisson =>
  }

  method ValidateTuningSet(ts: TuningSet, path: Path) returns (allErrs: seq<Error>)
    ensures forall e :: e in allErrs <==> TuningSetError(ts, path, e)
  {
    hide Has, LoadError, HasExactlyOne;
    var n0, e0 := ValidateLoad(ts, Qps, path);
    var n1, e1 := ValidateLoad(ts, Randomized, path);
    var n2, e2 := ValidateLoad(ts, Stepped, path);
    var n3, e3 := ValidateLoad(ts, TimeLimited, path);
    var n4, e4 := ValidateLoad(ts, RandomizedTimeLimited, path);
    var n5, e5 := ValidateLoad(ts, ParallelismLimited, path);
    var n6, e6 := ValidateLoad(ts, GlobalQps, path);
    var n7, e7 := ValidateLoad(ts, Poisson, path);
    allErrs := e0 + e1 + e2 + e3 + e4 + e5 + e6 + e7;
    forall e ensures e in allErrs <==> exists t :: LoadError(ts, t, path, e) {
      AnyLoadError(ts, path, e);
    }
    LoadCountIsOne(ts);
    if n0 + n1 + n2 + n3 + n4 + n5 + n6 + n7 != 1 {
      allErrs := allErrs + [Error(Forbidden, path)];
    }
  }

  lemma AnyLoadError(ts: TuningSet, path: Path, e: Error)
    ensures (exists t :: LoadError(ts, t, path, e)) <==>
      LoadError(ts, Qps, path, e) || LoadError(ts, Randomized, path, e) ||
      LoadError(ts, Stepped, path, e) || LoadError(ts, TimeLimited, path, e) ||
      LoadError(ts, RandomizedTimeLimited, path, e) || LoadError(ts, ParallelismLimited, path, e) ||
      LoadError(ts, GlobalQps, path, e) || LoadError(ts, Poisson, path, e)
  {
    hide LoadError;
    if t :| LoadError(ts, t, path, e) {
      match t case Qps => case Randomized => case Stepped => case TimeLimited =>
              case RandomizedTimeLimited => case ParallelismLimited => case GlobalQps => case Poisson =>
    }
  }

  method ValidateMethod(registered: set<string>, name: string, path: Path) returns (allErrs: seq<Error>)
    ensures forall e :: e in allErrs <==> MethodError(registered, name, path, e)
  {
    allErrs := [];
    if name == "" {
      allErrs := allErrs + [Error(Required, path)];
    }
    if name !in registered {
      allErrs := allErrs + [Error(Invalid, path)];
    }
  }

  method ValidateDependency(env: Environment, d: Dependency, path: Path) returns (allErrs: seq<Error>)
    ensures forall e :: e in allErrs <==> DependencyError(env, d, path, e)
  {
    hide MethodError, Under;
    allErrs := [];
    if d.name == "" {
      allErrs := allErrs + [Error(Required, Under(path, "name"))];
    }
    if d.timeout < 0 {
      allErrs := allErrs + [Error(Invalid, Under(path, "timeout"))];
    }
    var methodErrs := ValidateMethod(env.dependencies, d.methodName, Under(path, "method"));
    allErrs := allErrs + methodErrs;
  }

  method ValidateObject(env: Environment, o: Object, path: Path) returns (allErrs: seq<Error>)
    ensures forall e :: e in allErrs <==> ObjectError(env, o, path, e)
  {
    hide Under;
    allErrs := [];
    for i := 0 to env.nameErrors(o.basename)
      invariant forall e :: e in allErrs <==> i > 0 && e == Error(Invalid, Under(path, "basename"))
    {
      allErrs := allErrs + [Error(Invalid, Under(path, "basename"))];
    }
    if !env.fileExists(o.objectTemplatePath) {
      allErrs := allErrs + [Error(Invalid, Under(path, "objectTemplatePath"))];
    }
  }

  method ValidateNamespaceRange(nr: NamespaceRange, path: Path) returns (allErrs: seq<Error>)
    ensures forall e :: e in allErrs <==> NamespaceRangeError(nr, path, e)
  {
    hide Under;
    allErrs := [];
    if nr.min < 0 {
      allErrs := allErrs + [Error(Invalid, Under(path, "min"))];
    }
    if nr.max < nr.min {
      allErrs := allErrs + [Error(Invalid, Under(path, "max"))];
    }
  }

  method ValidatePhase(env: Environment, p: Phase, path: Path) returns (allErrs: seq<Error>)
    ensures forall e :: e in allErrs <==> PhaseError(env, p, path, e)
  {
    hide Under, At, NamespaceRangeError, ObjectError;
    allErrs := [];
    if p.namespaceList.Some? && p.namespaceRange.Some? {
      allErrs := allErrs + [Error(Forbidden, path)];
    }
    if p.namespaceRange.Some? {
      var rangeErrs := ValidateNamespaceRange(p.namespaceRange.value, Under(path, "namespaceRange"));
      allErrs := allErrs + rangeErrs;
    }
    if p.replicasPerNamespace < 0 {
      allErrs := allErrs + [Error(Invalid, Under(path, "replicasPerNamespace"))];
    }
    ghost var before := allErrs;
    for i := 0 to |p.objectBundle|
      invariant forall e :: e in allErrs <==>
        e in before || exists k :: 0 <= k < i && ObjectError(env, p.objectBundle[k], At(path, "objectBundle", k), e)
    {
      var objectErrs := ValidateObject(env, p.objectBundle[i], At(path, "objectBundle", i));
      allErrs := allErrs + objectErrs;
    }
  }

  method ValidateMeasurement(env: Environment, m: Measurement, path: Path) returns (allErrs: seq<Error>)
    ensures forall e :: e in allErrs <==> MeasurementError(env, m, path, e)
  {
    hide Under, MethodError;
    allErrs := [];
    if m.instances != 0 && m.identifier != "" {
      allErrs := allErrs + [Error(Invalid, Under(path, "Identifier"))];
    }
    if m.instances == 0 && m.identifier == "" {
      allErrs := allErrs + [Error(Invalid, Under(path, "Identifier"))];
    }
    var methodErrs := ValidateMethod(env.measurements, m.methodName, Under(path, "method"));
    allErrs := allErrs + methodErrs;
  }

  method ValidateStep(env: Environment, s: Step, path: Path) returns (allErrs: seq<Error>)
    ensures forall e :: e in allErrs <==> StepError(env, s, path, e)
  {
    hide Under, At, PhaseError, MeasurementError;
    allErrs := [];
    for i := 0 to |s.phases|
      invariant forall e :: e in allErrs <==>
        exists k :: 0 <= k < i && PhaseError(env, s.phases[k], At(path, "phases", k), e)
    {
      var phaseErrs := ValidatePhase(env, s.phases[i], At(path, "phases", i));
      allErrs := allErrs + phaseErrs;
    }
    ghost var before := allErrs;
    for i := 0 to |s.measurements|
      invariant forall e :: e in allErrs <==>
        e in before ||
        exists k :: 0 <= k < i && MeasurementError(env, s.measurements[k], At(path, "measurements", k), e)
    {
      var measurementErrs := ValidateMeasurement(env, s.measurements[i], At(path, "measurements", i));
      allErrs := allErrs + measurementErrs;
    }
    if s.phases == [] && s.measurements == [] {
      allErrs := allErrs + [Error(Invalid, Under(path, "measurements"))];
    }
    if s.phases != [] && s.measurements != [] {
      allErrs := allErrs + [Error(Invalid, Under(path, "measurements"))];
    }
  }

  method ValidateTuningSetInPhase(s: Step, tuningSets: seq<TuningSet>, path: Path) returns (allErrs: seq<Error>)
    ensures forall e :: e in allErrs <==> UndeclaredError(s, tuningSets, path, e)
  {
    hide Under, At;
    allErrs := [];
    for i := 0 to |s.phases|
      invariant forall e :: e in allErrs <==>
        exists k :: 0 <= k < i && IsUndeclared(s.phases[k], tuningSets) &&
          e == Error(Invalid, Under(At(path, "phases", k), "tuningSet"))
    {
      if s.phases[i].tuningSet != "" {
        var found := false;
        for j := 0 to |tuningSets|
          invariant !found
          invariant forall k :: 0 <= k < j ==> tuningSets[k].name != s.phases[i].tuningSet
        {
          if s.phases[i].tuningSet == tuningSets[j].name {
            found := true;
            break;
          }
        }
        assert found <==> Declared(tuningSets, s.phases[i].tuningSet);
        if !found {
          allErrs := allErrs + [Error(Invalid, Under(At(path, "phases", i), "tuningSet"))];
        }
      }
    }
  }

  method Validate(env: Environment, c: Config) returns (allErrs: seq<Error>)
    ensures forall e :: e in allErrs <==> ConfigError(env, c, e)
    ensures allErrs == [] <==> WellFormed(env, c)
  {
    hide Under, At, DependencyError, TuningSetError, StepError, UndeclaredError, WellFormed;
    allErrs := [];
    if c.automanagedNamespaces < 0 {
      allErrs := allErrs + [Error(Invalid, Under([], "automanagedNamespaces"))];
    }
    if c.namespaceNumber <= 0 {
      allErrs := allErrs + [Error(Invalid, Under(Under([], "namespace"), "number"))];
    }
    ghost var scalars := allErrs;
    for i := 0 to |c.dependencies|
      invariant forall e :: e in allErrs <==>
        e in scalars || exists k :: 0 <= k < i && DependencyError(env, c.dependencies[k], At([], "dependencies", k), e)
    {
      var errs := ValidateDependency(env, c.dependencies[i], At([], "dependencies", i));
      allErrs := allErrs + errs;
    }
    ghost var withDependencies := allErrs;
    for i := 0 to |c.tuningSets|
      invariant forall e :: e in allErrs <==>
        e in withDependencies || exists k :: 0 <= k < i && TuningSetError(c.tuningSets[k], At([], "tuningSets", k), e)
    {
      var errs := ValidateTuningSet(c.tuningSets[i], At([], "tuningSets", i));
      allErrs := allErrs + errs;
    }
    if |c.steps| == 0 {
      allErrs := allErrs + [Error(Invalid, Under([], "steps"))];
    }
    ghost var withTuningSets := allErrs;
    for i := 0 to |c.steps|
      invariant forall e :: e in allErrs <==>
        e in withTuningSets || exists k :: 0 <= k < i && StepError(env, c.steps[k], At([], "steps", k), e)
    {
      var errs := ValidateStep(env, c.steps[i], At([], "steps", i));
      allErrs := allErrs + errs;
    }
    ghost var withSteps := allErrs;
    for i := 0 to |c.steps|
      invariant forall e :: e in allErrs <==>
        e in withSteps || exists k :: 0 <= k < i && UndeclaredError(c.steps[k], c.tuningSets, At([], "steps", k), e)
    {
      var errs := ValidateTuningSetInPhase(c.steps[i], c.tuningSets, At([], "steps", i));
      allErrs := allErrs + errs;
    }
    assert forall e :: e in allErrs <==> ConfigError(env, c, e);
    NoErrorExactlyWhenWellFormed(env, c);
    assert allErrs != [] ==> allErrs[0] in allErrs;
  }

  // ----- The factory -----

  /** What a tuning set is executed with. */
  datatype Executor =
    | RunQps(qpsLoad: QPSLoad)
    | RunRandomized(randomizedLoad: RandomizedLoad)
    | RunStepped(steppedLoad: SteppedLoad)
    | RunTimeLimited(timeLimitedLoad: TimeLimitedLoad)
    | RunRandomizedTimeLimited(randomizedTimeLimitedLoad: RandomizedTimeLimitedLoad)
    | RunParallelismLimited(parallelismLimitedLoad: ParallelismLimitedLoad)
    | RunGlobalQps(globalQPSLoad: GlobalQPSLoad)
    | RunPoisson(poissonLoad: PoissonLoad)

  /** Every rate, size and limit of the executor is positive. */
  predicate CanRun(x: Executor) {
    match x
    case RunQps(l) => l.qps > 0.0
    case RunRandomized(l) => l.averageQps > 0.0
    case RunStepped(l) => l.burstSize > 0
    case RunTimeLimited(l) => l.timeLimit > 0
    case RunRandomizedTimeLimited(l) => l.timeLimit > 0
    case RunParallelismLimited(l) => l.parallelismLimit > 0
    case RunGlobalQps(l) => l.qps > 0.0 && l.burst > 0
    case RunPoisson(l) => l.expectedActionsPerSecond > 0.0
  }

  function TypeOf(x: Executor): LoadType {
    match x
    case RunQps(_) => Qps
    case RunRandomized(_) => Randomized
    case RunStepped(_) => Stepped
    case RunTimeLimited(_) => TimeLimited
    case RunRandomizedTimeLimited(_) => RandomizedTimeLimited
    case RunParallelismLimited(_) => ParallelismLimited
    case RunGlobalQps(_) => GlobalQps
    case RunPoisson(_) => Poisson
  }

  function ExecutorFor(ts: TuningSet, t: LoadType): Executor
    requires Has(ts, t)
  {
    match t
    case Qps => RunQps(ts.qpsLoad.value)
    case Randomized => RunRandomized(ts.randomizedLoad.value)
    case Stepped => RunStepped(ts.steppedLoad.value)
    case TimeLimited => RunTimeLimited(ts.timeLimitedLoad.value)
    case RandomizedTimeLimited => RunRandomizedTimeLimited(ts.randomizedTimeLimitedLoad.value)
    case ParallelismLimited => RunParallelismLimited(ts.parallelismLimitedLoad.value)
    case GlobalQps => RunGlobalQps(ts.globalQPSLoad.value)
    case Poisson => RunPoisson(ts.poissonLoad.value)
  }

  /** The order in which the factory looks for a load. */
  function Rank(t: LoadType): nat {
    match t
    case Qps => 0
    case Randomized => 1
    case Stepped => 2
    case TimeLimited => 3
    case RandomizedTimeLimited => 4
    case ParallelismLimited => 5
    case GlobalQps => 6
    case Poisson => 7
  }

  ghost predicate IsFirst(ts: TuningSet, t: LoadType) {
    Has(ts, t) && forall t' :: Has(ts, t') ==> Rank(t) <= Rank(t')
  }

  /** A well-formed tuning set is executed with its one load, and that can run. */
  lemma ExecutorCanRun(ts: TuningSet, t: LoadType)
    requires IsFirst(ts, t)
    ensures Has(ts, t) && TypeOf(ExecutorFor(ts, t)) == t
    ensures TuningSetOk(ts) ==> CanRun(ExecutorFor(ts, t))
  {
    if TuningSetOk(ts) {
      assert IsPositive(ts, t);
    }
  }

  /** The executor runs the very load of the tuning set. */
  predicate Runs(x: Executor, ts: TuningSet) {
    match x
    case RunQps(l) => ts.qpsLoad == Some(l)
    case RunRandomized(l) => ts.randomizedLoad == Some(l)
    case RunStepped(l) => ts.steppedLoad == Some(l)
    case RunTimeLimited(l) => ts.timeLimitedLoad == Some(l)
    case RunRandomizedTimeLimited(l) => ts.randomizedTimeLimitedLoad == Some(l)
    case RunParallelismLimited(l) => ts.parallelismLimitedLoad == Some(l)
    case RunGlobalQps(l) => ts.globalQPSLoad == Some(l)
    case RunPoisson(l) => ts.poissonLoad == Some(l)
  }

  /** With several loads the first one wins, from rates over bursts and limits to Poisson. */
  lemma FirstLoadWins(ts: TuningSet, t: LoadType)
    requires IsFirst(ts, t)
    ensures Runs(ExecutorFor(ts, t), ts)
    ensures ts.qpsLoad.Some? ==> t == Qps
    ensures ts.qpsLoad.None? && ts.randomizedLoad.Some? ==> t == Randomized
    ensures ts.qpsLoad.None? && ts.randomizedLoad.None? && ts.steppedLoad.Some? ==> t == Stepped
    ensures t == TimeLimited ==> ts.qpsLoad.None? && ts.randomizedLoad.None? && ts.steppedLoad.None?
    ensures ts.timeLimitedLoad.Some? ==> t in {Qps, Randomized, Stepped, TimeLimited}
    ensures ts.randomizedTimeLimitedLoad.Some? ==> t !in {ParallelismLimited, GlobalQps, Poisson}
    ensures ts.parallelismLimitedLoad.Some? ==> t !in {GlobalQps, Poisson}
    ensures ts.globalQPSLoad.Some? ==> t != Poisson
  {
    assert Has(ts, t);
    assert Has(ts, Qps) <==> ts.qpsLoad.Some?;
    assert Has(ts, Randomized) <==> ts.randomizedLoad.Some?;
    assert Has(ts, Stepped) <==> ts.steppedLoad.Some?;
    assert Has(ts, TimeLimited) <==> ts.timeLimitedLoad.Some?;
    assert Has(ts, RandomizedTimeLimited) <==> ts.randomizedTimeLimitedLoad.Some?;
    assert Has(ts, ParallelismLimited) <==> ts.parallelismLimitedLoad.Some?;
    assert Has(ts, GlobalQps) <==> ts.globalQPSLoad.Some?;
  }

  /** The tuning set a name stands for: the last one declared with it. */
  ghost predicate StandsFor(tuningSets: seq<TuningSet>, name: string, ts: TuningSet) {
    exists i :: 0 <= i < |tuningSets| && tuningSets[i] == ts && ts.name == name &&
      forall k :: i < k < |tuningSets| ==> tuningSets[k].name != name
  }

  ghost predicate Maps(m: map<string, TuningSet>, tuningSets: seq<TuningSet>) {
    forall name ::
      (name in m <==> Declared(tuningSets, name)) &&
      (name in m ==> StandsFor(tuningSets, name, m[name]))
  }

  class SimpleFactory {
    var tuningSetMap: map<string, TuningSet>
    /** The global loads, by the name of their tuning set; they survive Init. */
    var existing: map<string, GlobalQPSLoad>

    /** Only loads that can run were ever shared. */
    ghost predicate Valid()
      reads this
    {
      forall name :: name in existing ==> CanRun(RunGlobalQps(existing[name]))
    }

    constructor ()
      ensures Valid() && tuningSetMap == map[] && existing == map[]
    {
      tuningSetMap := map[];
      existing := map[];
    }

    method Init(tuningSets: seq<TuningSet>)
      modifies `tuningSetMap
      ensures Maps(tuningSetMap, tuningSets)
    {
      tuningSetMap := map[];
      MapsNothing();
      assert tuningSets[..0] == [];
      for i := 0 to |tuningSets|
        invariant Maps(tuningSetMap, tuningSets[..i])
      {
        MapsOneMore(tuningSetMap, tuningSets, i);
        tuningSetMap := tuningSetMap[tuningSets[i].name := tuningSets[i]];
      }
      assert tuningSets[..|tuningSets|] == tuningSets;
    }

    /** A global load is created once for a name, and found from then on. */
    method GetOrCreate(name: string, params: GlobalQPSLoad) returns (l: GlobalQPSLoad)
      modifies `existing
      ensures l == if name in old(existing) then old(existing)[name] else params
      ensures existing == old(existing)[name := l]
    {
      if name !in existing {
        existing := existing[name := params];
      }
      l := existing[name];
    }

    method CreateTuningSet(name: string) returns (r: Result<Executor, string>)
      modifies `existing
      ensures r.Ok? <==> name in tuningSetMap && exists t :: Has(tuningSetMap[name], t)
      ensures r.Ok? ==> IsFirst(tuningSetMap[name], TypeOf(r.value))
      ensures r.Ok? && (r.value.RunGlobalQps? ==> name !in old(existing)) ==>
        r.value == ExecutorFor(tuningSetMap[name], TypeOf(r.value))
      ensures r.Ok? && r.value.RunGlobalQps? && name in old(existing) ==>
        r.value == RunGlobalQps(old(existing)[name])
      ensures existing == if r.Ok? && r.value.RunGlobalQps? then old(existing)[name := r.value.globalQPSLoad]
        else old(existing)
      ensures r.Ok? && (r.value.RunGlobalQps? ==> name !in old(existing)) ==> Runs(r.value, tuningSetMap[name])
      ensures r.Ok? && old(Valid()) && TuningSetOk(tuningSetMap[name]) ==> CanRun(r.value) && Valid()
    {
      hide TuningSetOk, CanRun, IsFirst;
      if name !in tuningSetMap {
        return Err("tuningset not found");
      }
      var tuningSet := tuningSetMap[name];
      var t := Switch(tuningSet);
      if t.None? {
        return Err("incorrect tuning set");
      }
      ExecutorCanRun(tuningSet, t.value);
      FirstLoadWins(tuningSet, t.value);
      if t.value == GlobalQps {
        var l := GetOrCreate(name, tuningSet.globalQPSLoad.value);
        assert Has(tuningSetMap[name], GlobalQps);
        return Ok(RunGlobalQps(l));
      }
      return Ok(ExecutorFor(tuningSet, t.value));
    }
  }

  /** The first case of the factory's switch that applies. */
  method Switch(ts: TuningSet) returns (t: Option<LoadType>)
    ensures t.None? <==> forall t' :: !Has(ts, t')
    ensures t.Some? ==> IsFirst(ts, t.value)
  {
    if ts.qpsLoad.Some? {
      assert Has(ts, Qps);
      t := Some(Qps);
    } else if ts.randomizedLoad.Some? {
      assert Has(ts, Randomized);
      t := Some(Randomized);
    } else if ts.steppedLoad.Some? {
      assert Has(ts, Stepped);
      t := Some(Stepped);
    } else if ts.timeLimitedLoad.Some? {
      assert Has(ts, TimeLimited);
      t := Some(TimeLimited);
    } else if ts.randomizedTimeLimitedLoad.Some? {
      assert Has(ts, RandomizedTimeLimited);
      t := Some(RandomizedTimeLimited);
    } else if ts.parallelismLimitedLoad.Some? {
      assert Has(ts, ParallelismLimited);
      t := Some(ParallelismLimited);
    } else if ts.globalQPSLoad.Some? {
      assert Has(ts, GlobalQps);
      t := Some(GlobalQps);
    } else if ts.poissonLoad.Some? {
      assert Has(ts, Poisson);
      t := Some(Poisson);
    } else {
      t := None;
    }
  }

  lemma MapsNothing()
    ensures Maps(map[], [])
  {
  }

  lemma DeclaredStep(tuningSets: seq<TuningSet>, one: TuningSet, name: string)
    ensures Declared(tuningSets + [one], name) <==> name == one.name || Declared(tuningSets, name)
  {
    var all, n := tuningSets + [one], |tuningSets|;
    assert all[n] == one;
    if Declared(tuningSets, name) {
      var j :| 0 <= j < n && tuningSets[j].name == name;
      assert all[j].name == name;
    }
    if Declared(all, name) {
      var j :| 0 <= j <= n && all[j].name == name;
      assert j < n ==> tuningSets[j].name == name;
    }
  }

  lemma StandsForStep(tuningSets: seq<TuningSet>, one: TuningSet, name: string, ts: TuningSet)
    ensures StandsFor(tuningSets + [one], one.name, one)
    ensures StandsFor(tuningSets, name, ts) && name != one.name ==> StandsFor(tuningSets + [one], name, ts)
  {
    var all, n := tuningSets + [one], |tuningSets|;
    assert all[n] == one;
    if StandsFor(tuningSets, name, ts) && name != one.name {
      var k :| 0 <= k < n && tuningSets[k] == ts && ts.name == name &&
        forall l :: k < l < n ==> tuningSets[l].name != name;
      assert all[k] == ts;
      forall l | k < l <= n ensures all[l].name != name {
        assert l < n ==> all[l] == tuningSets[l];
      }
    }
  }

  /** Later declarations of a name replace earlier ones. */
  lemma MapsOneMore(m: map<string, TuningSet>, tuningSets: seq<TuningSet>, i: nat)
    requires i < |tuningSets| && Maps(m, tuningSets[..i])
    ensures Maps(m[tuningSets[i].name := tuningSets[i]], tuningSets[..i + 1])
  {
    hide Declared, StandsFor;
    var one, before, all := tuningSets[i], tuningSets[..i], tuningSets[..i + 1];
    var m' := m[one.name := one];
    assert all == before + [one];
    forall name: string
      ensures name in m' <==> Declared(all, name)
      ensures name in m' ==> StandsFor(all, name, m'[name])
    {
      assert name in m <==> Declared(before, name);
      DeclaredStep(before, one, name);
      StandsForStep(before, one, name, if name in m then m[name] else one);
    }
  }

  // ----- What a validated configuration is good for -----

  /**
   In a validated configuration every phase that names a tuning set gets an executor that can
   run; a phase without a name gets one exactly when a tuning set without a name is declared.
   */
  lemma PhaseGetsExecutorExactly(env: Environment, c: Config, m: map<string, TuningSet>, s: Step, p: Phase)
    requires WellFormed(env, c) && Maps(m, c.tuningSets) && s in c.steps && p in s.phases
    ensures p.tuningSet in m <==> p.tuningSet != "" || Declared(c.tuningSets, "")
    ensures p.tuningSet in m ==> TuningSetOk(m[p.tuningSet]) && exists t :: Has(m[p.tuningSet], t)
  {
    hide Has;
    assert StepOk(env, c.tuningSets, s);
    assert PhaseOk(env, c.tuningSets, p);
    if p.tuningSet in m {
      assert StandsFor(c.tuningSets, p.tuningSet, m[p.tuningSet]);
      assert m[p.tuningSet] in c.tuningSets;
    }
  }

  /** A well-formed configuration whose only phase cannot be executed. */
  lemma NamelessPhaseCanFail(env: Environment)
    ensures
      var p := Phase(None, None, 0, "", []);
      var c := Config(0, 1, [], [], [Step([p], [])]);
      WellFormed(env, c) && !Declared(c.tuningSets, p.tuningSet)
  {
  }

  ghost predicate InConfig(c: Config, p: Phase) {
    exists s :: s in c.steps && p in s.phases
  }

  /** `x` is the one executor of a tuning set: that of its load, or the global one shared since before. */
  ghost predicate Serves(existing: map<string, GlobalQPSLoad>, name: string, ts: TuningSet, x: Executor) {
    && Has(ts, TypeOf(x))
    && x == if TypeOf(x) == GlobalQps && name in existing then RunGlobalQps(existing[name])
      else ExecutorFor(ts, TypeOf(x))
  }

  lemma ServesIsUnique(existing: map<string, GlobalQPSLoad>, name: string, ts: TuningSet, x: Executor, y: Executor)
    requires HasExactlyOne(ts) && Serves(existing, name, ts, x) && Serves(existing, name, ts, y)
    ensures x == y
  {
  }

  /** The global loads are those from before, and new ones that their tuning sets ask for. */
  ghost predicate Extends(
      existing: map<string, GlobalQPSLoad>, before: map<string, GlobalQPSLoad>, m: map<string, TuningSet>)
  {
    forall name :: (name in before ==> name in existing && existing[name] == before[name]) &&
      (name in existing && name !in before ==> name in m && m[name].globalQPSLoad == Some(existing[name]))
  }

  lemma ServesThroughout(
      existing: map<string, GlobalQPSLoad>, before: map<string, GlobalQPSLoad>, m: map<string, TuningSet>,
      name: string, x: Executor)
    requires Extends(existing, before, m) && name in m && Has(m[name], TypeOf(x))
    requires x == if x.RunGlobalQps? && name in existing then RunGlobalQps(existing[name])
      else ExecutorFor(m[name], TypeOf(x))
    ensures Serves(before, name, m[name], x)
    ensures x.RunGlobalQps? ==> Extends(existing[name := x.globalQPSLoad], before, m)
  {
  }

  /**
   The executors for phases of a validated configuration, whatever phases and in whatever order they come to the
   factory: those of one step do so at the same time. Every phase that names a tuning set gets the executor of
   that tuning set, and it can run; which one that is does not depend on the order.
   */
  method ExecutePhases(env: Environment, c: Config, factory: SimpleFactory, order: seq<Phase>)
    returns (executors: seq<Result<Executor, string>>)
    requires WellFormed(env, c) && factory.Valid()
    requires forall p :: p in order ==> InConfig(c, p)
    modifies factory
    ensures factory.Valid()
    ensures |executors| == |order|
    ensures forall k :: 0 <= k < |order| ==> Served(old(factory.existing), c, order[k], executors[k])
  {
    hide WellFormed, Maps, Has, TuningSetOk, CanRun, Declared, StandsFor, InConfig, Extends, Serves, TypeOf,
      ExecutorFor, IsFirst;
    factory.Init(c.tuningSets);
    executors := [];
    ghost var before, m := factory.existing, factory.tuningSetMap;
    ExtendsItself(before, m);
    for i := 0 to |order|
      invariant factory.Valid() && factory.tuningSetMap == m
      invariant Extends(factory.existing, before, m)
      invariant |executors| == i
      invariant forall k :: 0 <= k < i ==> Served(before, c, order[k], executors[k])
    {
      var p := order[i];
      ghost var s := StepOf(c, p);
      PhaseGetsExecutorExactly(env, c, m, s, p);
      ghost var existing := factory.existing;
      var r := factory.CreateTuningSet(p.tuningSet);
      if r.Ok? {
        TypeIsHad(m[p.tuningSet], r.value);
        ServesThroughout(existing, before, m, p.tuningSet, r.value);
        MapsTo(m, c.tuningSets, p.tuningSet);
      }
      executors := executors + [r];
    }
  }

  ghost predicate Served(existing: map<string, GlobalQPSLoad>, c: Config, p: Phase, r: Result<Executor, string>) {
    && (r.Ok? <==> p.tuningSet != "" || Declared(c.tuningSets, ""))
    && (r.Ok? ==> CanRun(r.value) && exists ts ::
          StandsFor(c.tuningSets, p.tuningSet, ts) && Serves(existing, p.tuningSet, ts, r.value))
  }

  lemma StepOf(c: Config, p: Phase) returns (s: Step)
    requires InConfig(c, p)
    ensures s in c.steps && p in s.phases
  {
    s :| s in c.steps && p in s.phases;
  }

  lemma ExtendsItself(existing: map<string, GlobalQPSLoad>, m: map<string, TuningSet>)
    ensures Extends(existing, existing, m)
  {
  }

  lemma TypeIsHad(ts: TuningSet, x: Executor)
    requires IsFirst(ts, TypeOf(x))
    ensures Has(ts, TypeOf(x)) && (TypeOf(x) == GlobalQps <==> x.RunGlobalQps?)
  {
  }

  lemma MapsTo(m: map<string, TuningSet>, tuningSets: seq<TuningSet>, name: string)
    requires Maps(m, tuningSets) && name in m
    ensures StandsFor(tuningSets, name, m[name])
  {
  }
}
