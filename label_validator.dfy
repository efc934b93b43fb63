/**
 * The state LabelValidator keeps between labels and the part of
 * parseAndValidate that decides what is validated: the configuration map,
 * the schematron validation flag, the choice of schematrons
 * (cachedSchematron), the schematron reports and the filesProcessed counter.
 * The XML parser, the schema validator and the schematron engine are
 * parameters; the replay to the schema validator is DomReplay's.
 */
module LabelValidator {
  import opened Wrappers
  import opened JavaText
  import opened Problems
  import opened DomReplay
  import opened Schematron

  const SchemaCheck: string := "gov.nasa.pds.tools.label.SchemaCheck"
  const SchematronCheck: string := "gov.nasa.pds.tools.label.SchematronCheck"

  /** getConfiguration: the value stored under key, false when there is none. */
  function Configuration(configurations: map<string, bool>, key: string): bool {
    if key in configurations then configurations[key] else false
  }

  /** Setting one key changes what that key reads and nothing else. */
  lemma ConfigurationAfterSet(configurations: map<string, bool>, key: string, value: bool, other: string)
    ensures Configuration(configurations[key := value], key) == value
    ensures other != key ==> Configuration(configurations[key := value], other) == Configuration(configurations, other)
    ensures other !in configurations ==> !Configuration(configurations, other)
  {
  }

  /**
   * determineSchematronValidationFlag, with TargetExaminer's verdicts on the
   * label as parameters; None where the unset skipProductValidation is unboxed.
   */
  function SchematronFlag(skipProductValidation: Option<bool>, isBundle: bool, isCollection: bool): Option<bool> {
    match skipProductValidation
    case None => None
    case Some(skip) => Some(if !skip then true else isBundle || isCollection)
  }

  /**
   * Schematrons run on every label unless product validation is skipped; then
   * they run on bundle and collection labels only.
   */
  lemma SchematronFlagCases(skipProductValidation: Option<bool>, isBundle: bool, isCollection: bool)
    ensures SchematronFlag(skipProductValidation, isBundle, isCollection).None? <==> skipProductValidation.None?
    ensures SchematronFlag(skipProductValidation, isBundle, isCollection) == Some(true)
        <==> skipProductValidation == Some(false) || (skipProductValidation == Some(true) && (isBundle || isCollection))
    ensures SchematronFlag(skipProductValidation, isBundle, isCollection) == Some(false)
        <==> skipProductValidation == Some(true) && !isBundle && !isCollection
  {
    match skipProductValidation
    case None =>
    case Some(skip) =>
  }

  // ---------------------------------------------------------------------
  // Which schematrons validate the label (cachedSchematron)

  /** The schematrons and the label-schematron cache after the choice, and the problems it reported. */
  datatype Selected = Selected(schematrons: seq<Transformer>, labelCache: map<string, Transformer>, problems: seq<LabelProblem>)

  function FromLoad(l: Loaded): Selected {
    Selected(l.transformers, l.cache, l.problems)
  }

  function CompileAll(files: seq<string>, compileUser: string -> Transformer): (ts: seq<Transformer>)
    ensures |ts| == |files| && forall i | 0 <= i < |files| :: ts[i] == compileUser(files[i])
  {
    seq(|files|, i requires 0 <= i < |files| => compileUser(files[i]))
  }

  /**
   * The new cachedSchematron. While it is empty: the label's own schematrons
   * when those are used, else the user's transformers, else the user's
   * schematron files compiled in order. Once it is set it changes only when
   * label schematrons are used: to the user's transformers when there are
   * any, else to the label's own.
   */
  function Selection(cached: seq<Transformer>, labelCache: map<string, Transformer>, useLabelSchematron: bool,
                     user: seq<Transformer>, userFiles: Option<seq<string>>, refs: seq<string>, url: string,
                     o: LoadOracles, compileUser: string -> Transformer): Selected {
    if cached == [] then
      if useLabelSchematron then FromLoad(LoadAll(labelCache, refs, url, o))
      else if user != [] then Selected(user, labelCache, [])
      else if userFiles.Some? then Selected(CompileAll(userFiles.value, compileUser), labelCache, [])
      else Selected(cached, labelCache, [])
    else if useLabelSchematron then
      if user != [] then Selected(user, labelCache, [])
      else FromLoad(LoadAll(labelCache, refs, url, o))
    else Selected(cached, labelCache, [])
  }

  /** Without label schematrons a non-empty choice is kept from label to label. */
  lemma SelectionKeptWithoutLabelSchematrons(cached: seq<Transformer>, labelCache: map<string, Transformer>,
                                             user: seq<Transformer>, userFiles: Option<seq<string>>, refs: seq<string>,
                                             url: string, o: LoadOracles, compileUser: string -> Transformer)
    requires cached != []
    ensures Selection(cached, labelCache, false, user, userFiles, refs, url, o, compileUser) == Selected(cached, labelCache, [])
  {
  }

  /**
   * With label schematrons and no user transformers every label gets the
   * schematrons it references itself, whatever the previous label used.
   */
  lemma LabelSchematronsFollowTheLabel(cached: seq<Transformer>, labelCache: map<string, Transformer>,
                                       userFiles: Option<seq<string>>, refs: seq<string>,
                                       url: string, o: LoadOracles, compileUser: string -> Transformer)
    ensures var s := Selection(cached, labelCache, true, [], userFiles, refs, url, o, compileUser);
      s.schematrons == LoadAll(labelCache, refs, url, o).transformers
      && s.labelCache == LoadAll(labelCache, refs, url, o).cache
  {
  }

  /**
   * User transformers take over from label schematrons only once something is
   * cached: on the first label (cachedSchematron empty) the label's own
   * schematrons are loaded even when the user gave transformers.
   */
  lemma UserTransformersOnlyAfterFirstLabel(cached: seq<Transformer>, labelCache: map<string, Transformer>,
                                            user: seq<Transformer>, userFiles: Option<seq<string>>, refs: seq<string>,
                                            url: string, o: LoadOracles, compileUser: string -> Transformer)
    requires user != []
    ensures cached == [] ==>
      Selection(cached, labelCache, true, user, userFiles, refs, url, o, compileUser) == FromLoad(LoadAll(labelCache, refs, url, o))
    ensures cached != [] ==>
      Selection(cached, labelCache, true, user, userFiles, refs, url, o, compileUser) == Selected(user, labelCache, [])
  {
  }

  /** Whatever is chosen, the label-schematron cache keeps every entry it had. */
  lemma SelectionKeepsLabelCache(cached: seq<Transformer>, labelCache: map<string, Transformer>, useLabelSchematron: bool,
                                 user: seq<Transformer>, userFiles: Option<seq<string>>, refs: seq<string>, url: string,
                                 o: LoadOracles, compileUser: string -> Transformer)
    ensures var c := Selection(cached, labelCache, useLabelSchematron, user, userFiles, refs, url, o, compileUser).labelCache;
      forall k | k in labelCache :: k in c && c[k] == labelCache[k]
  {
    LoadKeepsCachedEntries(labelCache, refs, url, o);
  }

  // ---------------------------------------------------------------------
  // Applying the schematrons

  /** What the failed asserts of the reports add to the handler, and whether processFailedAssert threw. */
  datatype Reported = Reported(problems: seq<LabelProblem>, threw: bool)

  /** The failed asserts of one report, in order, up to the first that processFailedAssert cannot map. */
  function ReportAsserts(asserts: seq<FailedAssert>, url: string, xpath: string -> XPathResult, o: UrlOracles): Reported {
    if asserts == [] then Reported([], false)
    else match ProcessFailedAssert(url, asserts[0], xpath, o)
      case None => Reported([], true)
      case Some(p) =>
        var rest := ReportAsserts(asserts[1..], url, xpath, o);
        Reported([p] + rest.problems, rest.threw)
  }

  /**
   * The reports of the schematrons in order (run gives a schematron's failed
   * asserts on the label); nothing at all when the flag is off.
   */
  function ReportAll(flag: bool, schematrons: seq<Transformer>, run: Transformer -> seq<FailedAssert>, url: string,
                     xpath: string -> XPathResult, o: UrlOracles): Reported {
    if !flag || schematrons == [] then Reported([], false)
    else
      var first := ReportAsserts(run(schematrons[0]), url, xpath, o);
      if first.threw then first
      else
        var rest := ReportAll(flag, schematrons[1..], run, url, xpath, o);
        Reported(first.problems + rest.problems, rest.threw)
  }

  /** With the flag off no schematron is applied. */
  lemma FlagOffReportsNothing(schematrons: seq<Transformer>, run: Transformer -> seq<FailedAssert>, url: string,
                              xpath: string -> XPathResult, o: UrlOracles)
    ensures ReportAll(false, schematrons, run, url, xpath, o) == Reported([], false)
  {
  }

  /** The failed asserts of a report that all map: one problem each, in order, with the role's severity. */
  lemma {:induction false} ReportAssertsMapsEach(asserts: seq<FailedAssert>, url: string, xpath: string -> XPathResult, o: UrlOracles)
    requires forall i | 0 <= i < |asserts| :: ProcessFailedAssert(url, asserts[i], xpath, o).Some?
    ensures var r := ReportAsserts(asserts, url, xpath, o);
      && !r.threw && |r.problems| == |asserts|
      && forall i | 0 <= i < |asserts| :: r.problems[i] == ProcessFailedAssert(url, asserts[i], xpath, o).value
  {
    if asserts != [] {
      forall i | 0 <= i < |asserts[1..]| ensures ProcessFailedAssert(url, asserts[1..][i], xpath, o).Some? {
        assert asserts[1..][i] == asserts[i + 1];
      }
      ReportAssertsMapsEach(asserts[1..], url, xpath, o);
    }
  }

  /** A report stops at, and only at, a failed assert processFailedAssert cannot map. */
  lemma {:induction false} ReportAssertsThrowsExactly(asserts: seq<FailedAssert>, url: string, xpath: string -> XPathResult, o: UrlOracles)
    ensures ReportAsserts(asserts, url, xpath, o).threw
        <==> exists i | 0 <= i < |asserts| :: ProcessFailedAssert(url, asserts[i], xpath, o).None?
  {
    if asserts != [] {
      ReportAssertsThrowsExactly(asserts[1..], url, xpath, o);
      if ProcessFailedAssert(url, asserts[0], xpath, o).Some? {
        if exists i | 0 <= i < |asserts| :: ProcessFailedAssert(url, asserts[i], xpath, o).None? {
          var i :| 0 <= i < |asserts| && ProcessFailedAssert(url, asserts[i], xpath, o).None?;
          assert asserts[1..][i - 1] == asserts[i];
        }
        if exists j | 0 <= j < |asserts[1..]| :: ProcessFailedAssert(url, asserts[1..][j], xpath, o).None? {
          var j :| 0 <= j < |asserts[1..]| && ProcessFailedAssert(url, asserts[1..][j], xpath, o).None?;
          assert asserts[j + 1] == asserts[1..][j];
        }
      }
    }
  }

  /** Every problem of the reports is a schematron problem. */
  lemma {:induction false} ReportKinds(flag: bool, schematrons: seq<Transformer>, run: Transformer -> seq<FailedAssert>, url: string,
                                       xpath: string -> XPathResult, o: UrlOracles)
    ensures forall p | p in ReportAll(flag, schematrons, run, url, xpath, o).problems ::
      p.kind == SchematronError || p.kind == SchematronWarning || p.kind == SchematronInfo
  {
    if flag && schematrons != [] {
      ReportAssertKinds(run(schematrons[0]), url, xpath, o);
      ReportKinds(flag, schematrons[1..], run, url, xpath, o);
    }
  }

  lemma {:induction false} ReportAssertKinds(asserts: seq<FailedAssert>, url: string, xpath: string -> XPathResult, o: UrlOracles)
    ensures forall p | p in ReportAsserts(asserts, url, xpath, o).problems ::
      p.kind == SchematronError || p.kind == SchematronWarning || p.kind == SchematronInfo
  {
    if asserts != [] {
      ReportAssertKinds(asserts[1..], url, xpath, o);
      match ProcessFailedAssert(url, asserts[0], xpath, o)
      case None =>
      case Some(p) => FailedAssertKeepsRoleSeverity(url, asserts[0], xpath, o);
    }
  }

  // ---------------------------------------------------------------------
  // The validator

  /** How parseAndValidate ends: normally, with a MissingLabelSchemaException, or with a NullPointerException. */
  datatype Outcome = Completed | MissingLabelSchema | NullReference

  /** A parsed label: its DOM and whether the root element has an xsi:schemaLocation attribute. */
  datatype Label = Label(document: Node, rootHasSchemaLocation: bool)

  /**
   * The libraries parseAndValidate calls, as parameters: the xml-model pattern,
   * the URL and catalog calls and schematron compilation of the label cache,
   * compilation of the user's schematron files, the schematron engine (the
   * failed asserts a schematron finds in the label), XPath over the label, and
   * TargetExaminer's verdicts on the label.
   */
  datatype Environment = Environment(
    pattern: string -> Option<string>,
    urls: UrlOracles,
    compile: string -> Compiled,
    compileUser: string -> Transformer,
    run: Transformer -> seq<FailedAssert>,
    xpath: string -> XPathResult,
    isBundle: bool,
    isCollection: bool)

  class LabelValidator {
    var configurations: map<string, bool>
    var userSchematronFiles: Option<seq<string>>
    var userSchematronTransformers: seq<Transformer>
    var cachedSchematron: seq<Transformer>
    var resolver: Option<string -> CatalogResult>
    var useLabelSchema: bool
    var useLabelSchematron: bool
    var skipProductValidation: Option<bool>
    var cachedLabelSchematrons: map<string, Transformer>
    var filesProcessed: nat

    constructor ()
      ensures configurations == map[SchemaCheck := true, SchematronCheck := true]
      ensures userSchematronFiles.None? && userSchematronTransformers == [] && cachedSchematron == []
      ensures resolver.None? && !useLabelSchema && !useLabelSchematron && skipProductValidation.None?
      ensures cachedLabelSchematrons == map[] && filesProcessed == 0
    {
      configurations := map[SchemaCheck := true, SchematronCheck := true];
      userSchematronFiles := None;
      userSchematronTransformers := [];
      cachedSchematron := [];
      resolver := None;
      useLabelSchema := false;
      useLabelSchematron := false;
      skipProductValidation := None;
      cachedLabelSchematrons := map[];
      filesProcessed := 0;
    }

    function GetConfiguration(key: string): (b: bool)
      reads this
      ensures b <==> key in configurations && configurations[key]
    {
      Configuration(configurations, key)
    }

    function PerformsSchemaValidation(): bool
      reads this
    {
      GetConfiguration(SchemaCheck)
    }

    function PerformsSchematronValidation(): bool
      reads this
    {
      GetConfiguration(SchematronCheck)
    }

    method SetConfiguration(key: string, value: bool)
      modifies this`configurations
      ensures configurations == old(configurations)[key := value]
      ensures GetConfiguration(key) == value
      ensures unchanged(this`cachedSchematron, this`cachedLabelSchematrons, this`filesProcessed, this`skipProductValidation)
      ensures useLabelSchema == old(useLabelSchema) && useLabelSchematron == old(useLabelSchematron)
    {
      configurations := configurations[key := value];
    }

    method SetSchemaCheck(value: bool, useLabelSchema: bool)
      modifies this`configurations, this`useLabelSchema
      ensures configurations == old(configurations)[SchemaCheck := value]
      ensures this.useLabelSchema == useLabelSchema
    {
      SetConfiguration(SchemaCheck, value);
      this.useLabelSchema := useLabelSchema;
    }

    /** setSchemaCheck(value): the one-argument overload passes useLabelSchema false. */
    method SetSchemaCheckDefault(value: bool)
      modifies this`configurations, this`useLabelSchema
      ensures configurations == old(configurations)[SchemaCheck := value]
      ensures !useLabelSchema && PerformsSchemaValidation() == value
    {
      SetSchemaCheck(value, false);
    }

    method SetSchematronCheck(value: bool, useLabelSchematron: bool)
      modifies this`configurations, this`useLabelSchematron
      ensures configurations == old(configurations)[SchematronCheck := value]
      ensures this.useLabelSchematron == useLabelSchematron
    {
      SetConfiguration(SchematronCheck, value);
      this.useLabelSchematron := useLabelSchematron;
    }

    /** setSchematronCheck(value): the one-argument overload passes useLabelSchematron false. */
    method SetSchematronCheckDefault(value: bool)
      modifies this`configurations, this`useLabelSchematron
      ensures configurations == old(configurations)[SchematronCheck := value]
      ensures !useLabelSchematron && PerformsSchematronValidation() == value
    {
      SetSchematronCheck(value, false);
    }

    method SetSkipProductValidation(flag: bool)
      modifies this`skipProductValidation
      ensures skipProductValidation == Some(flag)
    {
      skipProductValidation := Some(flag);
    }

    method SetSchematrons(schematrons: seq<Transformer>)
      modifies this`userSchematronTransformers
      ensures userSchematronTransformers == schematrons
    {
      userSchematronTransformers := schematrons;
    }

    method SetSchematronFiles(files: seq<string>)
      modifies this`userSchematronFiles
      ensures userSchematronFiles == Some(files)
    {
      userSchematronFiles := Some(files);
    }

    method SetLabelSchematrons(schematronMap: map<string, Transformer>)
      modifies this`cachedLabelSchematrons
      ensures cachedLabelSchematrons == schematronMap
    {
      cachedLabelSchematrons := schematronMap;
    }

    /** setCatalogs: a catalog resolver is installed and label schematrons are used from then on. */
    method SetCatalogs(catalog: string -> CatalogResult)
      modifies this`resolver, this`useLabelSchematron
      ensures resolver == Some(catalog) && useLabelSchematron
    {
      resolver := Some(catalog);
      useLabelSchematron := true;
    }

    function DetermineSchematronValidationFlag(isBundle: bool, isCollection: bool): (flag: Option<bool>)
      reads this
      ensures flag == SchematronFlag(skipProductValidation, isBundle, isCollection)
      ensures flag.Some? && !flag.value ==> skipProductValidation == Some(true)
    {
      match skipProductValidation
      case None => None
      case Some(skip) =>
        if !skip then Some(true)
        else if isBundle || isCollection then Some(true)
        else Some(false)
    }

    /** getSchematrons: the label's schematron references, in list order, each unresolvable one reported. */
    method GetSchematrons(nodes: seq<Node>, url: string, pattern: string -> Option<string>, urls: UrlOracles,
                          handler: ProblemSink<LabelProblem>)
      returns (results: seq<string>)
      modifies handler
      ensures results == CollectSchematrons(nodes, url, pattern, urls).refs
      ensures handler.problems == old(handler.problems) + CollectSchematrons(nodes, url, pattern, urls).problems
    {
      results := [];
      for i := 0 to |nodes|
        invariant results == CollectSchematrons(nodes[..i], url, pattern, urls).refs
        invariant handler.problems == old(handler.problems) + CollectSchematrons(nodes[..i], url, pattern, urls).problems
      {
        assert nodes[..i + 1][..i] == nodes[..i];
        var n := nodes[i];
        if n.ProcessingInstruction? && EqualsIgnoreCase("xml-model", n.target) {
          var matched := pattern(CollapseWhitespace(n.data));
          if matched.Some? {
            var value := Trim(matched.value);
            var ref := ResolveReference(url, value, urls);
            if ref.Url? {
              results := results + [ref.spec];
            } else {
              handler.Add(LabelError(SchematronError, "Cannot resolve schematron specification '" + value + "': " + ref.message, url));
            }
          }
        }
      }
      assert nodes[..|nodes|] == nodes;
    }

    /** loadLabelSchematrons: hits are returned, misses compiled into the cache, failures reported. */
    method LoadLabelSchematrons(sources: seq<string>, url: string, urls: UrlOracles, compile: string -> Compiled,
                                handler: ProblemSink<LabelProblem>)
      returns (transformers: seq<Transformer>)
      modifies this`cachedLabelSchematrons, handler
      ensures var l := LoadAll(old(cachedLabelSchematrons), sources, url, LoadOracles(urls, resolver, compile));
        && transformers == l.transformers
        && cachedLabelSchematrons == l.cache
        && handler.problems == old(handler.problems) + l.problems
    {
      ghost var o := LoadOracles(urls, resolver, compile);
      transformers := [];
      for i := 0 to |sources|
        invariant var l := LoadAll(old(cachedLabelSchematrons), sources[..i], url, o);
          transformers == l.transformers && cachedLabelSchematrons == l.cache
          && handler.problems == old(handler.problems) + l.problems
      {
        assert sources[..i + 1][..i] == sources[..i];
        ghost var l := LoadAll(old(cachedLabelSchematrons), sources[..i], url, o);
        LoadSourceShifts(l, old(handler.problems), sources[i], url, o);
        transformers := LoadSchematron(sources[i], url, urls, compile, transformers, handler);
      }
      assert sources[..|sources|] == sources;
    }

    /**
     * The body of the loop of loadLabelSchematrons for one source: catalog
     * resolution, then the cache lookup, then URL construction and compilation
     * on a miss; any exception reports one problem.
     */
    method LoadSchematron(source: string, url: string, urls: UrlOracles, compile: string -> Compiled,
                          transformers: seq<Transformer>, handler: ProblemSink<LabelProblem>)
      returns (result: seq<Transformer>)
      modifies this`cachedLabelSchematrons, handler
      ensures Loaded(cachedLabelSchematrons, result, handler.problems)
           == LoadSource(Loaded(old(cachedLabelSchematrons), transformers, old(handler.problems)), source, url,
                         LoadOracles(urls, resolver, compile))
    {
      result := transformers;
      var key := source;
      var failure: Option<string> := None;
      if resolver.Some? {
        match resolver.value(urls.makeAbsolute(urls.parent(url), source))
        case Resolved(r) => key := r;
        case NotInCatalog => failure := Some("'" + source + "' was not resolvable through the catalog file.");
        case CatalogIoError(m) => failure := Some("Error while resolving '" + source + "' through the catalog: " + m);
      }
      if failure.None? {
        if key in cachedLabelSchematrons {
          result := result + [cachedLabelSchematrons[key]];
        } else {
          var sourceUrl := urls.newUrl(key);
          if sourceUrl.Malformed? {
            failure := Some(sourceUrl.message);
          } else {
            var compiled := compile(sourceUrl.spec);
            if compiled.CompileError? {
              failure := Some("Schematron '" + key + "' error: " + compiled.message);
            } else {
              cachedLabelSchematrons := cachedLabelSchematrons[key := compiled.transformer];
            }
          }
        }
      }
      if failure.Some? {
        handler.Add(LoadError(failure.value, url));
      }
    }

    /** The user's schematron files compiled in order (lines 466-475). */
    method CompileUserSchematrons(files: seq<string>, compileUser: string -> Transformer) returns (transformers: seq<Transformer>)
      ensures transformers == CompileAll(files, compileUser)
    {
      transformers := [];
      for i := 0 to |files|
        invariant transformers == CompileAll(files[..i], compileUser)
      {
        transformers := transformers + [compileUser(files[i])];
      }
      assert files[..|files|] == files;
    }

    /** The choice of cachedSchematron for this label. */
    method SelectSchematrons(refs: seq<string>, url: string, env: Environment, handler: ProblemSink<LabelProblem>)
      modifies this`cachedSchematron, this`cachedLabelSchematrons, handler
      ensures var s := Selection(old(cachedSchematron), old(cachedLabelSchematrons), useLabelSchematron,
                                 userSchematronTransformers, userSchematronFiles, refs, url,
                                 LoadOracles(env.urls, resolver, env.compile), env.compileUser);
        && cachedSchematron == s.schematrons
        && cachedLabelSchematrons == s.labelCache
        && handler.problems == old(handler.problems) + s.problems
    {
      if cachedSchematron == [] {
        if useLabelSchematron {
          cachedSchematron := LoadLabelSchematrons(refs, url, env.urls, env.compile, handler);
        } else if userSchematronTransformers != [] {
          cachedSchematron := userSchematronTransformers;
        } else if userSchematronFiles.Some? {
          cachedSchematron := CompileUserSchematrons(userSchematronFiles.value, env.compileUser);
        }
      } else if useLabelSchematron {
        if userSchematronTransformers != [] {
          cachedSchematron := userSchematronTransformers;
        } else {
          cachedSchematron := LoadLabelSchematrons(refs, url, env.urls, env.compile, handler);
        }
      }
    }

    /** The failed asserts of one report, until one cannot be mapped. */
    method ReportFailedAsserts(asserts: seq<FailedAssert>, url: string, xpath: string -> XPathResult, urls: UrlOracles,
                               handler: ProblemSink<LabelProblem>)
      returns (threw: bool)
      modifies handler
      ensures handler.problems == old(handler.problems) + ReportAsserts(asserts, url, xpath, urls).problems
      ensures threw == ReportAsserts(asserts, url, xpath, urls).threw
    {
      for i := 0 to |asserts|
        invariant old(handler.problems) + ReportAsserts(asserts, url, xpath, urls).problems
               == handler.problems + ReportAsserts(asserts[i..], url, xpath, urls).problems
        invariant ReportAsserts(asserts, url, xpath, urls).threw == ReportAsserts(asserts[i..], url, xpath, urls).threw
      {
        var problem := ProcessFailedAssert(url, asserts[i], xpath, urls);
        assert asserts[i..][1..] == asserts[i + 1..];
        if problem.None? {
          return true;
        }
        AppendAssociates(handler.problems, [problem.value], ReportAsserts(asserts[i + 1..], url, xpath, urls).problems);
        handler.Add(problem.value);
      }
      return false;
    }

    /** Applies every cached schematron when the flag is on, adding a problem per failed assert. */
    method ApplySchematrons(flag: bool, url: string, env: Environment, handler: ProblemSink<LabelProblem>)
      returns (threw: bool)
      modifies handler
      ensures handler.problems == old(handler.problems) + ReportAll(flag, cachedSchematron, env.run, url, env.xpath, env.urls).problems
      ensures threw == ReportAll(flag, cachedSchematron, env.run, url, env.xpath, env.urls).threw
    {
      ghost var all := ReportAll(flag, cachedSchematron, env.run, url, env.xpath, env.urls);
      for i := 0 to |cachedSchematron|
        invariant old(handler.problems) + all.problems
               == handler.problems + ReportAll(flag, cachedSchematron[i..], env.run, url, env.xpath, env.urls).problems
        invariant all.threw == ReportAll(flag, cachedSchematron[i..], env.run, url, env.xpath, env.urls).threw
      {
        assert cachedSchematron[i..][1..] == cachedSchematron[i + 1..];
        if !flag {
          continue;
        }
        ghost var first := ReportAsserts(env.run(cachedSchematron[i]), url, env.xpath, env.urls);
        ghost var rest := ReportAll(flag, cachedSchematron[i + 1..], env.run, url, env.xpath, env.urls);
        ghost var before := handler.problems;
        var failed := ReportFailedAsserts(env.run(cachedSchematron[i]), url, env.xpath, env.urls, handler);
        if failed {
          return true;
        }
        AppendAssociates(before, first.problems, rest.problems);
      }
      return false;
    }

    // -------------------------------------------------------------------
    // parseAndValidate

    /** The schema validator is fed the replay of the label. */
    predicate ReplaysToSchema()
      reads this
    {
      PerformsSchemaValidation() && skipProductValidation == Some(false)
    }

    /** The schema phase lets the label through to the schematron phase, and that phase is on. */
    predicate ReachesSchematrons(parsed: Label)
      reads this
    {
      && !(PerformsSchemaValidation() && (skipProductValidation.None? || (useLabelSchema && !parsed.rootHasSchemaLocation)))
      && PerformsSchematronValidation()
    }

    function LabelRefs(url: string, parsed: Label, env: Environment): Collected
      reads this
    {
      if useLabelSchematron then CollectSchematrons(Children(parsed.document), url, env.pattern, env.urls)
      else Collected([], [])
    }

    function Chosen(url: string, parsed: Label, env: Environment): Selected
      reads this
    {
      Selection(cachedSchematron, cachedLabelSchematrons, useLabelSchematron, userSchematronTransformers,
                userSchematronFiles, LabelRefs(url, parsed, env).refs, url,
                LoadOracles(env.urls, resolver, env.compile), env.compileUser)
    }

    function Reports(url: string, parsed: Label, env: Environment): Reported
      reads this
    {
      match DetermineSchematronValidationFlag(env.isBundle, env.isCollection)
      case None => Reported([], true)
      case Some(flag) => ReportAll(flag, Chosen(url, parsed, env).schematrons, env.run, url, env.xpath, env.urls)
    }

    /** What the schematron phase adds to the handler: unresolvable references, load failures, failed asserts. */
    function SchematronProblems(url: string, parsed: Label, env: Environment): seq<LabelProblem>
      reads this
    {
      LabelRefs(url, parsed, env).problems + Chosen(url, parsed, env).problems + Reports(url, parsed, env).problems
    }

    /** How parseAndValidate ends on this label. */
    function ExpectedOutcome(url: string, parsed: Label, env: Environment): Outcome
      reads this
    {
      if PerformsSchemaValidation() && skipProductValidation.None? then NullReference
      else if PerformsSchemaValidation() && useLabelSchema && !parsed.rootHasSchemaLocation then MissingLabelSchema
      else if PerformsSchematronValidation() && Reports(url, parsed, env).threw then NullReference
      else if skipProductValidation.None? then NullReference
      else Completed
    }

    /**
     * A label completes exactly when skipProductValidation is set, the label
     * names its schema when that is required, and every failed assert maps;
     * an unset flag ends in a NullPointerException whichever phases run.
     */
    lemma CompletesExactly(url: string, parsed: Label, env: Environment)
      ensures ExpectedOutcome(url, parsed, env) == Completed
          <==> && skipProductValidation.Some?
               && !(PerformsSchemaValidation() && useLabelSchema && !parsed.rootHasSchemaLocation)
               && !(PerformsSchematronValidation() && Reports(url, parsed, env).threw)
      ensures skipProductValidation.None? ==> ExpectedOutcome(url, parsed, env) == NullReference
      ensures ExpectedOutcome(url, parsed, env) == MissingLabelSchema
          <==> PerformsSchemaValidation() && skipProductValidation.Some? && useLabelSchema && !parsed.rootHasSchemaLocation
    {
    }

    /**
     * parseAndValidate on a label that parsed: the schema phase replays the
     * label to the schema validator, the schematron phase chooses the
     * schematrons and reports their failed asserts, and filesProcessed counts
     * the labels that came through.
     */
    method ParseAndValidate(url: string, parsed: Label, env: Environment,
                            schemaHandler: ContentHandler, handler: ProblemSink<LabelProblem>)
      returns (outcome: Outcome)
      modifies this`cachedSchematron, this`cachedLabelSchematrons, this`filesProcessed, handler, schemaHandler
      ensures outcome == old(ExpectedOutcome(url, parsed, env))
      ensures filesProcessed == old(filesProcessed) + (if outcome == Completed then 1 else 0)
      ensures schemaHandler.events
           == old(schemaHandler.events) + (if old(ReplaysToSchema()) then Walk(parsed.document, Position(0, 0, url)).events else [])
      ensures old(ReachesSchematrons(parsed)) ==>
        && cachedSchematron == old(Chosen(url, parsed, env)).schematrons
        && cachedLabelSchematrons == old(Chosen(url, parsed, env)).labelCache
        && handler.problems == old(handler.problems) + old(SchematronProblems(url, parsed, env))
      ensures !old(ReachesSchematrons(parsed)) ==>
        && cachedSchematron == old(cachedSchematron) && cachedLabelSchematrons == old(cachedLabelSchematrons)
        && handler.problems == old(handler.problems)
    {
      if PerformsSchemaValidation() {
        var locator := new DOMLocator(url);
        if skipProductValidation.None? {
          return NullReference;
        }
        if !skipProductValidation.value {
          WalkNode(parsed.document, schemaHandler, locator);
        }
        if useLabelSchema && !parsed.rootHasSchemaLocation {
          return MissingLabelSchema;
        }
      }
      if PerformsSchematronValidation() {
        var threw := SchematronPhase(url, parsed, env, handler);
        if threw {
          return NullReference;
        }
      }
      if skipProductValidation.None? {
        return NullReference;
      }
      filesProcessed := filesProcessed + 1;
      return Completed;
    }

    /** Lines 453-514: collect the label's references, choose the schematrons and apply them. */
    method SchematronPhase(url: string, parsed: Label, env: Environment, handler: ProblemSink<LabelProblem>)
      returns (threw: bool)
      modifies this`cachedSchematron, this`cachedLabelSchematrons, handler
      ensures threw == old(Reports(url, parsed, env)).threw
      ensures cachedSchematron == old(Chosen(url, parsed, env)).schematrons
      ensures cachedLabelSchematrons == old(Chosen(url, parsed, env)).labelCache
      ensures handler.problems == old(handler.problems) + old(SchematronProblems(url, parsed, env))
    {
      ghost var refs := LabelRefs(url, parsed, env);
      ghost var chosen := Chosen(url, parsed, env);
      ghost var reports := Reports(url, parsed, env);
      assert SchematronProblems(url, parsed, env) == refs.problems + chosen.problems + reports.problems;
      var labelSchematronRefs: seq<string> := [];
      if useLabelSchematron {
        labelSchematronRefs := GetSchematrons(Children(parsed.document), url, env.pattern, env.urls, handler);
      }
      assert handler.problems == old(handler.problems) + refs.problems;
      SelectSchematrons(labelSchematronRefs, url, env, handler);
      AppendAssociates(old(handler.problems), refs.problems, chosen.problems);
      ghost var chosenProblems := refs.problems + chosen.problems;
      assert handler.problems == old(handler.problems) + chosenProblems;
      var flag := DetermineSchematronValidationFlag(env.isBundle, env.isCollection);
      if flag.None? {
        assert chosenProblems + reports.problems == chosenProblems;
        return true;
      }
      assert reports == ReportAll(flag.value, cachedSchematron, env.run, url, env.xpath, env.urls);
      threw := ApplySchematrons(flag.value, url, env, handler);
      AppendAssociates(old(handler.problems), chosenProblems, reports.problems);
    }
  }
}
