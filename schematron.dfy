/**
 * The Schematron side of LabelValidator that can be stated without an XML
 * engine: turning a failed assert of an SVRL report into a ValidationProblem
 * (processFailedAssert), collecting the schematron references of a label
 * (getSchematrons) and the cache of compiled label schematrons
 * (loadLabelSchematrons). URL parsing, the xml-model pattern, XPath
 * evaluation, catalog resolution and schematron compilation are parameters.
 */
module Schematron {
  import opened Wrappers
  import opened JavaText
  import opened Problems
  import opened DomReplay

  /** java.net.URL construction: the URL's string form, or a MalformedURLException and its message. */
  datatype UrlResult = Url(spec: string) | Malformed(message: string)

  /**
   * The URL library calls, as parameters: new URL(spec), new URL(context, spec),
   * Utility.makeAbsolute(parent, spec) and Utility.getParent(url).toString().
   */
  datatype UrlOracles = UrlOracles(
    newUrl: string -> UrlResult,
    resolveAgainst: (string, string) -> UrlResult,
    makeAbsolute: (string, string) -> string,
    parent: string -> string)

  /** ValidationProblem(definition, url) leaves the line and the column unset. */
  const NoLine: int := -1

  function LabelError(kind: ProblemType, message: string, url: string): LabelProblem {
    LabelProblem(Error, kind, message, url, NoLine, NoLine)
  }

  // ---------------------------------------------------------------------
  // processFailedAssert

  /**
   * An svrl:failed-assert node: its text content and its role, location and
   * test attributes (None when the attribute is absent).
   */
  datatype FailedAssert = FailedAssert(text: string, role: Option<string>, location: Option<string>, test: Option<string>)

  /**
   * What evaluating the location XPath against the label gives: an
   * XPathExpressionException (ignored), no node (getUserData is then called
   * on null), or a node with its optional SourceLocation.
   */
  datatype XPathResult = XPathFailure | NoNode | FoundNode(loc: Option<SourceLocation>)

  datatype RoleVerdict = RoleVerdict(severity: Severity, kind: ProblemType)

  /** The severity and problem type a role attribute selects; anything else is an error. */
  function RoleSeverity(role: Option<string>): RoleVerdict {
    if role.Some? && (EqualsIgnoreCase("warn", role.value) || EqualsIgnoreCase("warning", role.value)) then
      RoleVerdict(Warning, SchematronWarning)
    else if role.Some? && EqualsIgnoreCase("info", role.value) then
      RoleVerdict(Info, SchematronInfo)
    else RoleVerdict(Error, SchematronError)
  }

  /** The context String.format appends when the failing node has no position. */
  function ContextSuffix(location: string, test: string): string {
    " [Context: \"" + location + "\"; Test: \"" + test + "\"]"
  }

  /**
   * The problem processFailedAssert returns for a failed assert of the label at
   * url, or None where it dereferences null: a missing location attribute, an
   * XPath that selects no node, or a missing test attribute when the message
   * needs it.
   */
  function ProcessFailedAssert(url: string, a: FailedAssert, xpath: string -> XPathResult, o: UrlOracles): Option<LabelProblem> {
    var verdict := RoleSeverity(a.role);
    var message := Trim(a.text);
    if a.location.None? then None
    else
      var result := xpath(a.location.value);
      if result.NoNode? then None
      else if result.FoundNode? && result.loc.Some? then
        var loc := result.loc.value;
        var sourceUrl :=
          if loc.url.Some? && o.newUrl(loc.url.value).Url? then o.newUrl(loc.url.value).spec else url;
        Some(LabelProblem(verdict.severity, verdict.kind, message, sourceUrl, loc.line, loc.column))
      else if a.test.None? then None
      else Some(LabelProblem(verdict.severity, verdict.kind, message + ContextSuffix(a.location.value, a.test.value),
                             url, NoLine, NoLine))
  }

  /** The role decides the severity: "warn" and "warning" warn, "info" informs, in any case; all else is an error. */
  lemma RoleSeverityCases(role: Option<string>)
    ensures var v := RoleSeverity(role);
      && (v == RoleVerdict(Warning, SchematronWarning)
          <==> role.Some? && (EqualsIgnoreCase("warn", role.value) || EqualsIgnoreCase("warning", role.value)))
      && (v == RoleVerdict(Info, SchematronInfo)
          <==> role.Some? && EqualsIgnoreCase("info", role.value))
      && (v == RoleVerdict(Error, SchematronError)
          <==> role.None? || !(EqualsIgnoreCase("warn", role.value) || EqualsIgnoreCase("warning", role.value)
                               || EqualsIgnoreCase("info", role.value)))
  {
    if role.Some? && EqualsIgnoreCase("info", role.value) {
      assert CharEqualsIgnoreCase('i', role.value[0]);
      LetterFoldClass('i', role.value[0]);
      LetterFoldClass('w', role.value[0]);
    }
  }

  /** Upper-case roles select the same severities as lower-case ones. */
  lemma RoleIgnoresCase()
    ensures RoleSeverity(Some("WARNING")) == RoleVerdict(Warning, SchematronWarning)
    ensures RoleSeverity(Some("Warn")) == RoleVerdict(Warning, SchematronWarning)
    ensures RoleSeverity(Some("INFO")) == RoleVerdict(Info, SchematronInfo)
    ensures RoleSeverity(Some("fatal")) == RoleVerdict(Error, SchematronError)
  {
    assert EqualsIgnoreCase("warning", "WARNING") by {
      forall i | 0 <= i < 7 ensures CharEqualsIgnoreCase("warning"[i], "WARNING"[i]) {
        assert "WARNING"[i] as int == "warning"[i] as int - 32;
      }
    }
    assert !EqualsIgnoreCase("warn", "WARNING");
    assert EqualsIgnoreCase("warn", "Warn") by {
      assert UpperCase('w') == 'W';
    }
    assert EqualsIgnoreCase("info", "INFO") by {
      forall i | 0 <= i < 4 ensures CharEqualsIgnoreCase("info"[i], "INFO"[i]) {
        assert "INFO"[i] as int == "info"[i] as int - 32;
      }
    }
    assert !EqualsIgnoreCase("warn", "INFO") by {
      assert !CharEqualsIgnoreCase("warn"[0], "INFO"[0]);
    }
    assert |"fatal"| == 5;
  }

  /**
   * Java folds the dotless i (U+0131) and the dotted capital I (U+0130) onto
   * 'i': "info" spelled with either informs, and "warning" with a dotless i warns.
   */
  lemma RoleFoldsTurkishI()
    ensures RoleSeverity(Some("\U{0131}nfo")) == RoleVerdict(Info, SchematronInfo)
    ensures RoleSeverity(Some("\U{0130}NFO")) == RoleVerdict(Info, SchematronInfo)
    ensures RoleSeverity(Some("warn\U{0131}ng")) == RoleVerdict(Warning, SchematronWarning)
  {
    assert !EqualsIgnoreCase("warn", "\U{0131}nfo") by {
      assert !CharEqualsIgnoreCase('w', "\U{0131}nfo"[0]);
    }
    assert !EqualsIgnoreCase("warning", "\U{0131}nfo");
    assert EqualsIgnoreCase("info", "\U{0131}nfo") by {
      forall i | 0 <= i < 4 ensures CharEqualsIgnoreCase("info"[i], "\U{0131}nfo"[i]) {
      }
    }
    assert !EqualsIgnoreCase("warn", "\U{0130}NFO") by {
      assert !CharEqualsIgnoreCase('w', "\U{0130}NFO"[0]);
    }
    assert !EqualsIgnoreCase("warning", "\U{0130}NFO");
    assert EqualsIgnoreCase("info", "\U{0130}NFO") by {
      forall i | 0 <= i < 4 ensures CharEqualsIgnoreCase("info"[i], "\U{0130}NFO"[i]) {
        assert i > 0 ==> "\U{0130}NFO"[i] as int == "info"[i] as int - 32;
      }
    }
    assert EqualsIgnoreCase("warning", "warn\U{0131}ng") by {
      forall i | 0 <= i < 7 ensures CharEqualsIgnoreCase("warning"[i], "warn\U{0131}ng"[i]) {
      }
    }
  }

  /**
   * Whenever a problem is produced its severity and type are the role's, with
   * or without a position: the missing position changes the message only.
   */
  lemma FailedAssertKeepsRoleSeverity(url: string, a: FailedAssert, xpath: string -> XPathResult, o: UrlOracles)
    requires ProcessFailedAssert(url, a, xpath, o).Some?
    ensures var p := ProcessFailedAssert(url, a, xpath, o).value;
      p.severity == RoleSeverity(a.role).severity && p.kind == RoleSeverity(a.role).kind
  {
  }

  /**
   * Without a SourceLocation for the failing node (the XPath fails, or the node
   * carries none), the problem lies at the label's URL with line and column -1,
   * and its message is the trimmed text followed by the context and the test.
   */
  lemma NoPositionFallsBackToContext(url: string, a: FailedAssert, xpath: string -> XPathResult, o: UrlOracles)
    requires a.location.Some? && a.test.Some?
    requires xpath(a.location.value) == XPathFailure || xpath(a.location.value) == FoundNode(None)
    ensures ProcessFailedAssert(url, a, xpath, o)
         == Some(LabelProblem(RoleSeverity(a.role).severity, RoleSeverity(a.role).kind,
                              Trim(a.text) + " [Context: \"" + a.location.value + "\"; Test: \"" + a.test.value + "\"]",
                              url, -1, -1))
  {
    var l, t := a.location.value, a.test.value;
    assert Trim(a.text) + ContextSuffix(l, t) == Trim(a.text) + " [Context: \"" + l + "\"; Test: \"" + t + "\"]";
  }

  /**
   * With a SourceLocation the problem takes its line and column, keeps the
   * trimmed text as message, and moves to the location's URL when it has one
   * that parses.
   */
  lemma PositionIsCopied(url: string, a: FailedAssert, xpath: string -> XPathResult, o: UrlOracles, loc: SourceLocation)
    requires a.location.Some? && xpath(a.location.value) == FoundNode(Some(loc))
    ensures var r := ProcessFailedAssert(url, a, xpath, o);
      && r.Some?
      && r.value.line == loc.line && r.value.column == loc.column
      && r.value.message == Trim(a.text)
      && (loc.url.None? ==> r.value.url == url)
      && (loc.url.Some? && o.newUrl(loc.url.value).Malformed? ==> r.value.url == url)
      && (loc.url.Some? && o.newUrl(loc.url.value).Url? ==> r.value.url == o.newUrl(loc.url.value).spec)
  {
  }

  /**
   * processFailedAssert fails exactly when it dereferences null: no location
   * attribute, an XPath selecting no node, or no test attribute when there is
   * no position to report.
   */
  lemma FailedAssertFailsExactly(url: string, a: FailedAssert, xpath: string -> XPathResult, o: UrlOracles)
    ensures ProcessFailedAssert(url, a, xpath, o).None?
        <==> (a.location.None?
              || xpath(a.location.value) == NoNode
              || (a.test.None? && (xpath(a.location.value) == XPathFailure
                                   || xpath(a.location.value) == FoundNode(None))))
  {
  }

  // ---------------------------------------------------------------------
  // getSchematrons

  /** What one node of the list gives: nothing, a resolved reference, or a problem. */
  datatype Contribution = Nothing | Reference(ref: string) | Unresolvable(problem: LabelProblem)

  /** The processing instructions getSchematrons looks at: target xml-model, in any case. */
  predicate IsXmlModel(n: Node) {
    n.ProcessingInstruction? && EqualsIgnoreCase("xml-model", n.target)
  }

  /**
   * Resolving a reference: new URL(value) made absolute against the label's
   * parent; when either construction fails, new URL(url, value).
   */
  function ResolveReference(url: string, value: string, o: UrlOracles): UrlResult {
    match o.newUrl(value)
    case Url(u) =>
      (match o.newUrl(o.makeAbsolute(o.parent(url), u))
       case Url(r) => Url(r)
       case Malformed(_) => o.resolveAgainst(url, value))
    case Malformed(_) => o.resolveAgainst(url, value)
  }

  /**
   * What one node contributes. pattern stands for matching the whitespace-collapsed
   * data against SCHEMATRON_SCHEMATYPENS_PATTERN and giving back group 1.
   */
  function ContributionOf(n: Node, url: string, pattern: string -> Option<string>, o: UrlOracles): Contribution {
    if !IsXmlModel(n) then Nothing
    else match pattern(CollapseWhitespace(n.data))
      case None => Nothing
      case Some(group) =>
        var value := Trim(group);
        match ResolveReference(url, value, o)
        case Url(r) => Reference(r)
        case Malformed(m) =>
          Unresolvable(LabelError(SchematronError, "Cannot resolve schematron specification '" + value + "': " + m, url))
  }

  /** The references getSchematrons returns and the problems it reports. */
  datatype Collected = Collected(refs: seq<string>, problems: seq<LabelProblem>)

  function Contribute(c: Collected, x: Contribution): Collected {
    match x
    case Nothing => c
    case Reference(r) => Collected(c.refs + [r], c.problems)
    case Unresolvable(p) => Collected(c.refs, c.problems + [p])
  }

  /** What getSchematrons collects from the first |nodes| nodes of the list, in list order. */
  function CollectSchematrons(nodes: seq<Node>, url: string, pattern: string -> Option<string>, o: UrlOracles): Collected {
    if nodes == [] then Collected([], [])
    else Contribute(CollectSchematrons(nodes[..|nodes| - 1], url, pattern, o),
                    ContributionOf(nodes[|nodes| - 1], url, pattern, o))
  }

  /** The nodes whose collapsed data matches the pattern: the ones that contribute something. */
  predicate IsSchematronModel(n: Node, pattern: string -> Option<string>) {
    IsXmlModel(n) && pattern(CollapseWhitespace(n.data)).Some?
  }

  function CountModels(nodes: seq<Node>, pattern: string -> Option<string>): nat {
    if nodes == [] then 0
    else CountModels(nodes[..|nodes| - 1], pattern) + (if IsSchematronModel(nodes[|nodes| - 1], pattern) then 1 else 0)
  }

  /** Collecting from two lists one after the other is collecting from their concatenation: document order. */
  lemma {:induction false} CollectConcatenates(a: seq<Node>, b: seq<Node>, url: string, pattern: string -> Option<string>, o: UrlOracles)
    ensures var ca := CollectSchematrons(a, url, pattern, o);
      var cb := CollectSchematrons(b, url, pattern, o);
      CollectSchematrons(a + b, url, pattern, o) == Collected(ca.refs + cb.refs, ca.problems + cb.problems)
    decreases |b|
  {
    if b == [] {
      assert a + b == a;
    } else {
      var b' := b[..|b| - 1];
      assert (a + b)[..|a + b| - 1] == a + b';
      assert (a + b)[|a + b| - 1] == b[|b| - 1];
      CollectConcatenates(a, b', url, pattern, o);
      ContributeAfter(CollectSchematrons(a, url, pattern, o), CollectSchematrons(b', url, pattern, o),
                      ContributionOf(b[|b| - 1], url, pattern, o));
    }
  }

  /** A contribution added after two collections joined is added to the second. */
  lemma ContributeAfter(ca: Collected, cb: Collected, x: Contribution)
    ensures Contribute(Collected(ca.refs + cb.refs, ca.problems + cb.problems), x)
      == Collected(ca.refs + Contribute(cb, x).refs, ca.problems + Contribute(cb, x).problems)
  {
    match x
    case Nothing =>
    case Reference(r) => assert ca.refs + cb.refs + [r] == ca.refs + (cb.refs + [r]);
    case Unresolvable(p) => assert ca.problems + cb.problems + [p] == ca.problems + (cb.problems + [p]);
  }

  /**
   * Every xml-model instruction whose data matches gives exactly one reference
   * or one problem; every problem is a SCHEMATRON_ERROR at the label's URL;
   * no other node gives anything.
   */
  lemma {:induction false} CollectAccountsForEveryModel(nodes: seq<Node>, url: string, pattern: string -> Option<string>, o: UrlOracles)
    ensures var c := CollectSchematrons(nodes, url, pattern, o);
      && |c.refs| + |c.problems| == CountModels(nodes, pattern)
      && forall p | p in c.problems :: p.severity == Error && p.kind == SchematronError && p.url == url
  {
    if nodes != [] {
      CollectAccountsForEveryModel(nodes[..|nodes| - 1], url, pattern, o);
    }
  }

  /** A list without xml-model instructions yields no reference and no problem. */
  lemma {:induction false} NoXmlModelNoReferences(nodes: seq<Node>, url: string, pattern: string -> Option<string>, o: UrlOracles)
    requires forall i | 0 <= i < |nodes| :: !IsXmlModel(nodes[i])
    ensures CollectSchematrons(nodes, url, pattern, o) == Collected([], [])
  {
    if nodes != [] {
      NoXmlModelNoReferences(nodes[..|nodes| - 1], url, pattern, o);
    }
  }

  /** Whitespace in the data is collapsed before matching: data differing only in its \s runs gives the same reference. */
  lemma CollapsedDataSameContribution(target: string, data: string, loc: Option<SourceLocation>, url: string,
                                      pattern: string -> Option<string>, o: UrlOracles)
    ensures ContributionOf(ProcessingInstruction(loc, target, CollapseWhitespace(data)), url, pattern, o)
         == ContributionOf(ProcessingInstruction(loc, target, data), url, pattern, o)
  {
    CollapseWhitespaceCollapses(data);
    CollapseWhitespaceIdempotent(CollapseWhitespace(data));
  }

  // ---------------------------------------------------------------------
  // loadLabelSchematrons

  /** A compiled schematron. */
  datatype Transformer = Transformer(id: int)

  /** XMLCatalogResolver.resolveSchematron: a resolved URL, null, or an IOException and its message. */
  datatype CatalogResult = Resolved(url: string) | NotInCatalog | CatalogIoError(message: string)

  /** SchematronTransformer.transform(URL): a transformer, or a TransformerException and its message. */
  datatype Compiled = CompiledOk(transformer: Transformer) | CompileError(message: string)

  /**
   * The label-schematron library calls, as parameters: the catalog resolver when
   * one is set, and schematron compilation.
   */
  datatype LoadOracles = LoadOracles(
    urls: UrlOracles,
    resolver: Option<string -> CatalogResult>,
    compile: string -> Compiled)

  /** The cache key of a source: the source itself, or what the catalog resolves it to. */
  datatype KeyResult = Key(key: string) | KeyError(message: string)

  function CacheKey(source: string, url: string, o: LoadOracles): KeyResult {
    match o.resolver
    case None => Key(source)
    case Some(resolve) =>
      match resolve(o.urls.makeAbsolute(o.urls.parent(url), source))
      case Resolved(r) => Key(r)
      case NotInCatalog => KeyError("'" + source + "' was not resolvable through the catalog file.")
      case CatalogIoError(m) => KeyError("Error while resolving '" + source + "' through the catalog: " + m)
  }

  /** The cache, the transformers returned and the problems reported so far. */
  datatype Loaded = Loaded(cache: map<string, Transformer>, transformers: seq<Transformer>, problems: seq<LabelProblem>)

  const LOAD_ERROR_PREFIX := "Error occurred while loading schematron: "

  function LoadError(message: string, url: string): (p: LabelProblem)
    ensures StartsWith(p.message, LOAD_ERROR_PREFIX) && p.message[|LOAD_ERROR_PREFIX|..] == message
  {
    LabelError(SchematronError, LOAD_ERROR_PREFIX + message, url)
  }

  /**
   * One source: a cache hit returns the cached transformer; a miss compiles the
   * source and caches it without returning it; each failure reports one problem.
   */
  function LoadSource(l: Loaded, source: string, url: string, o: LoadOracles): Loaded {
    match CacheKey(source, url, o)
    case KeyError(m) => Loaded(l.cache, l.transformers, l.problems + [LoadError(m, url)])
    case Key(k) =>
      if k in l.cache then Loaded(l.cache, l.transformers + [l.cache[k]], l.problems)
      else match o.urls.newUrl(k)
        case Malformed(m) => Loaded(l.cache, l.transformers, l.problems + [LoadError(m, url)])
        case Url(u) =>
          match o.compile(u)
          case CompileError(m) => Loaded(l.cache, l.transformers, l.problems + [LoadError("Schematron '" + k + "' error: " + m, url)])
          case CompiledOk(t) => Loaded(l.cache[k := t], l.transformers, l.problems)
  }

  /** loadLabelSchematrons over the sources in order, from the given cache. */
  function LoadAll(cache: map<string, Transformer>, sources: seq<string>, url: string, o: LoadOracles): Loaded {
    if sources == [] then Loaded(cache, [], [])
    else LoadSource(LoadAll(cache, sources[..|sources| - 1], url, o), sources[|sources| - 1], url, o)
  }

  /** What a source does to the cache: compiled is true when it was a miss that compiled. */
  predicate Inserted(l: Loaded, source: string, url: string, o: LoadOracles) {
    CacheKey(source, url, o).Key? && CacheKey(source, url, o).key !in l.cache
    && o.urls.newUrl(CacheKey(source, url, o).key).Url?
    && o.compile(o.urls.newUrl(CacheKey(source, url, o).key).spec).CompiledOk?
  }

  /**
   * One source, against the state so far: entries already cached stay; a miss
   * that compiles adds exactly its key and nothing else; any other source
   * returns the cached transformer or reports one SCHEMATRON_ERROR.
   */
  lemma LoadSourceEffect(l: Loaded, source: string, url: string, o: LoadOracles)
    ensures var n := LoadSource(l, source, url, o);
      && (forall k | k in l.cache :: k in n.cache && n.cache[k] == l.cache[k])
      && (Inserted(l, source, url, o) ==>
            && CacheKey(source, url, o).key !in l.cache
            && n.cache.Keys == l.cache.Keys + {CacheKey(source, url, o).key}
            && n.transformers == l.transformers && n.problems == l.problems)
      && (!Inserted(l, source, url, o) ==>
            && n.cache == l.cache
            && |n.transformers| + |n.problems| == |l.transformers| + |l.problems| + 1)
      && (n.transformers == l.transformers
          || (exists k | k in l.cache :: n.transformers == l.transformers + [l.cache[k]]))
      && (n.problems == l.problems
          || (exists m :: n.problems == l.problems + [LoadError(m, url)]))
  {
    match CacheKey(source, url, o)
    case KeyError(m) => assert LoadSource(l, source, url, o).problems == l.problems + [LoadError(m, url)];
    case Key(k) =>
      if k in l.cache {
        assert LoadSource(l, source, url, o).transformers == l.transformers + [l.cache[k]];
      } else {
        match o.urls.newUrl(k)
        case Malformed(m) => assert LoadSource(l, source, url, o).problems == l.problems + [LoadError(m, url)];
        case Url(u) =>
          match o.compile(u)
          case CompileError(m) =>
            var msg := "Schematron '" + k + "' error: " + m;
            assert LoadSource(l, source, url, o).problems == l.problems + [LoadError(msg, url)];
          case CompiledOk(t) =>
      }
  }

  /** A source's step does not look at the problems already reported: it only appends to them. */
  lemma LoadSourceShifts(l: Loaded, pre: seq<LabelProblem>, source: string, url: string, o: LoadOracles)
    ensures var shifted := LoadSource(Loaded(l.cache, l.transformers, pre + l.problems), source, url, o);
      var n := LoadSource(l, source, url, o);
      shifted == Loaded(n.cache, n.transformers, pre + n.problems)
  {
    var n := LoadSource(l, source, url, o);
    if n.problems != l.problems {
      var p := n.problems[|l.problems|];
      LoadSourceEffect(l, source, url, o);
      assert pre + l.problems + [p] == pre + (l.problems + [p]);
    }
  }

  /**
   * A cached entry is never replaced: a key is compiled only when absent, so
   * every entry of the old cache is still there with the same transformer.
   */
  lemma {:induction false} LoadKeepsCachedEntries(cache: map<string, Transformer>, sources: seq<string>, url: string, o: LoadOracles)
    ensures var c := LoadAll(cache, sources, url, o).cache;
      forall k | k in cache :: k in c && c[k] == cache[k]
  {
    if sources != [] {
      LoadKeepsCachedEntries(cache, sources[..|sources| - 1], url, o);
      LoadSourceEffect(LoadAll(cache, sources[..|sources| - 1], url, o), sources[|sources| - 1], url, o);
    }
  }

  /** Adding a key the cache lacked adds one to the count of new keys. */
  lemma NewKeysGrow(keys: set<string>, initial: set<string>, k: string)
    requires initial <= keys && k !in keys
    ensures |(keys + {k}) - initial| == |keys - initial| + 1
  {
    assert (keys + {k}) - initial == (keys - initial) + {k};
  }

  /**
   * Each source has exactly one effect: a returned transformer (a hit), a new
   * cache entry (a miss that compiled) or one problem.
   */
  lemma {:induction false} LoadAccountsForEverySource(cache: map<string, Transformer>, sources: seq<string>, url: string, o: LoadOracles)
    ensures var l := LoadAll(cache, sources, url, o);
      && cache.Keys <= l.cache.Keys
      && |l.transformers| + |l.problems| + |l.cache.Keys - cache.Keys| == |sources|
  {
    if sources != [] {
      var before := LoadAll(cache, sources[..|sources| - 1], url, o);
      var last := sources[|sources| - 1];
      LoadAccountsForEverySource(cache, sources[..|sources| - 1], url, o);
      LoadSourceEffect(before, last, url, o);
      if Inserted(before, last, url, o) {
        NewKeysGrow(before.cache.Keys, cache.Keys, CacheKey(last, url, o).key);
      }
    }
  }

  /**
   * Every problem loadLabelSchematrons reports is a SCHEMATRON_ERROR at the
   * label's URL, with no position, whose message starts with the load-error prefix.
   */
  lemma {:induction false} LoadProblemsAreSchematronErrors(cache: map<string, Transformer>, sources: seq<string>, url: string, o: LoadOracles)
    ensures forall p | p in LoadAll(cache, sources, url, o).problems ::
      && p.severity == Error && p.kind == SchematronError && p.url == url && p.line == -1 && p.column == -1
      && StartsWith(p.message, LOAD_ERROR_PREFIX)
  {
    if sources != [] {
      var before := LoadAll(cache, sources[..|sources| - 1], url, o);
      LoadProblemsAreSchematronErrors(cache, sources[..|sources| - 1], url, o);
      LoadSourceEffect(before, sources[|sources| - 1], url, o);
    }
  }

  /** Every transformer returned is the cached one of some key. */
  predicate ReturnsCached(l: Loaded) {
    forall t | t in l.transformers :: exists k | k in l.cache :: l.cache[k] == t
  }

  lemma {:induction false} LoadReturnsCachedTransformers(cache: map<string, Transformer>, sources: seq<string>, url: string, o: LoadOracles)
    ensures ReturnsCached(LoadAll(cache, sources, url, o))
  {
    if sources != [] {
      var before := LoadAll(cache, sources[..|sources| - 1], url, o);
      LoadReturnsCachedTransformers(cache, sources[..|sources| - 1], url, o);
      assert ReturnsCached(before);
      LoadSourceEffect(before, sources[|sources| - 1], url, o);
      var l := LoadSource(before, sources[|sources| - 1], url, o);
      forall t | t in l.transformers ensures exists k | k in l.cache :: l.cache[k] == t {
        if t in before.transformers {
          var k :| k in before.cache && before.cache[k] == t;
          assert l.cache[k] == t;
        } else {
          var k :| k in before.cache && l.transformers == before.transformers + [before.cache[k]];
          assert l.cache[k] == t;
        }
      }
    }
  }

  /**
   * On a cold cache a source that compiles is not returned: a first load of
   * distinct sources without a catalog returns nothing and caches only sources.
   */
  lemma {:induction false} ColdLoadReturnsNothing(sources: seq<string>, url: string, o: LoadOracles)
    requires o.resolver.None?
    requires forall i, j | 0 <= i < j < |sources| :: sources[i] != sources[j]
    ensures LoadAll(map[], sources, url, o).transformers == []
    ensures forall k | k in LoadAll(map[], sources, url, o).cache :: k in sources
  {
    if sources != [] {
      var prefix := sources[..|sources| - 1];
      var last := sources[|sources| - 1];
      ColdLoadReturnsNothing(prefix, url, o);
      var before := LoadAll(map[], prefix, url, o);
      assert last !in before.cache by {
        forall i | 0 <= i < |prefix| ensures prefix[i] != last {
          assert prefix[i] == sources[i];
        }
      }
      forall k | k in before.cache ensures k in sources {
        var i :| 0 <= i < |prefix| && prefix[i] == k;
        assert sources[i] == k;
      }
    }
  }
}
