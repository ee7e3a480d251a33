/**
 * The rasterization application factory of
 * cars/applications/rasterization/point_cloud_rasterization.py: every subclass registers itself
 * under its short name, and constructing the abstract application picks the registered class
 * the configuration names, "simple_gaussian" when there is no configuration.
 */
module PointCloudRasterization {
  import opened Wrappers
  import opened PyValue

  const DEFAULT_APPLICATION: string := "simple_gaussian"
  const METHOD: string := "method"

  /** The KeyError message for a method no subclass registered. */
  function NotRegistered(name: string): string {
    "No rasterization application named " + name + " registered"
  }

  /** An instance of an application class, known by the class's name. */
  datatype Application = Instance(className: string)

  /**
   * The method a configuration asks for: the default one for a falsy configuration, otherwise
   * its "method" entry, a KeyError when it has none.
   */
  function SelectedMethod(conf: Option<Dict>): (r: Result<string>)
    ensures IsFalsy(conf) ==> r == Ok(DEFAULT_APPLICATION)
    ensures !IsFalsy(conf) && r.Ok? ==> Get(conf.value, METHOD) == Some(StrObj(r.value))
    ensures !IsFalsy(conf) ==> (r == Err(KeyError(METHOD)) <==> METHOD !in Keys(conf.value))
  {
    if IsFalsy(conf) then Ok(DEFAULT_APPLICATION)
    else
      var m := Get(conf.value, METHOD);
      if m.None? then Err(KeyError(METHOD))
      else if m.value.StrObj? then Ok(m.value.s)
      else Err(TypeError("the rasterization method is not a string"))
  }

  /** What constructing the abstract application yields with a given registry. */
  function Dispatch(applications: map<string, string>, conf: Option<Dict>): (r: Result<Application>)
    ensures r.Ok? ==> r.value.className in applications.Values
    ensures SelectedMethod(conf).Ok? ==> (r.Ok? <==> SelectedMethod(conf).value in applications)
    ensures SelectedMethod(conf).Err? ==> r == Err(SelectedMethod(conf).error)
  {
    match SelectedMethod(conf)
    case Err(e) => Err(e)
    case Ok(m) =>
      if m !in applications then Err(KeyError(NotRegistered(m)))
      else Ok(Instance(applications[m]))
  }

  /** The abstract application; its class-level dict of registered subclasses. */
  class PointCloudRasterization {
    var availableApplications: map<string, string>

    /** The class as defined, before any subclass registers. */
    constructor ()
      ensures availableApplications == map[]
    {
      availableApplications := map[];
    }

    /** `__init_subclass__`: a subclass is registered under its short name, replacing any earlier one. */
    method Register(shortName: string, className: string)
      modifies this
      ensures availableApplications == old(availableApplications)[shortName := className]
    {
      availableApplications := availableApplications[shortName := className];
    }

    /**
     * `__new__`: the selected method must be registered, and the result is an instance of the
     * class registered under it.
     */
    method New(conf: Option<Dict>) returns (r: Result<Application>)
      ensures r == Dispatch(availableApplications, conf)
      ensures r.Ok? ==> r.value.className in availableApplications.Values
    {
      var rasterizationMethod := DEFAULT_APPLICATION;
      if !IsFalsy(conf) {
        var m := Get(conf.value, METHOD);
        if m.None? {
          return Err(KeyError(METHOD));
        }
        if !m.value.StrObj? {
          return Err(TypeError("the rasterization method is not a string"));
        }
        rasterizationMethod := m.value.s;
      }
      if rasterizationMethod !in availableApplications {
        return Err(KeyError(NotRegistered(rasterizationMethod)));
      }
      r := Ok(Instance(availableApplications[rasterizationMethod]));
    }
  }

  /** A falsy configuration gets the default application, if it is registered, a KeyError otherwise. */
  lemma DispatchDefault(applications: map<string, string>, conf: Option<Dict>)
    requires IsFalsy(conf)
    ensures DEFAULT_APPLICATION in applications ==> Dispatch(applications, conf) == Ok(Instance(applications[DEFAULT_APPLICATION]))
    ensures DEFAULT_APPLICATION !in applications ==> Dispatch(applications, conf) == Err(KeyError(NotRegistered(DEFAULT_APPLICATION)))
  {
  }

  /**
   * A configuration that is not falsy gets the class registered under its "method" entry,
   * whatever else it holds.
   */
  lemma DispatchNamedMethod(applications: map<string, string>, conf: Option<Dict>, name: string)
    requires !IsFalsy(conf) && Get(conf.value, METHOD) == Some(StrObj(name))
    requires name in applications
    ensures Dispatch(applications, conf) == Ok(Instance(applications[name]))
  {
  }

  /** A method no class is registered under is a KeyError naming it. */
  lemma DispatchUnregisteredMethod(applications: map<string, string>, conf: Option<Dict>, name: string)
    requires !IsFalsy(conf) && Get(conf.value, METHOD) == Some(StrObj(name))
    requires name !in applications
    ensures Dispatch(applications, conf) == Err(KeyError(NotRegistered(name)))
  {
  }

  /** A configuration that is not falsy and has no "method" entry is a KeyError, whatever is registered. */
  lemma DispatchMissingMethod(applications: map<string, string>, conf: Option<Dict>)
    requires !IsFalsy(conf) && METHOD !in Keys(conf.value)
    ensures Dispatch(applications, conf) == Err(KeyError(METHOD))
  {
  }

  /**
   * Registering a class under a name makes that name dispatch to it, and leaves the outcome
   * for every configuration selecting another name as it was.
   */
  lemma DispatchAfterRegister(applications: map<string, string>, shortName: string, className: string, conf: Option<Dict>)
    ensures SelectedMethod(conf) == Ok(shortName) ==> Dispatch(applications[shortName := className], conf) == Ok(Instance(className))
    ensures SelectedMethod(conf).Ok? && SelectedMethod(conf).value != shortName
            ==> Dispatch(applications[shortName := className], conf) == Dispatch(applications, conf)
    ensures SelectedMethod(conf).Err? ==> Dispatch(applications[shortName := className], conf) == Dispatch(applications, conf)
  {
  }

  /** Once a "simple_gaussian" subclass is registered, a falsy configuration always succeeds. */
  lemma DefaultRegisteredNeverFails(applications: map<string, string>, className: string, conf: Option<Dict>)
    requires IsFalsy(conf)
    ensures Dispatch(applications[DEFAULT_APPLICATION := className], conf) == Ok(Instance(className))
  {
  }
}
