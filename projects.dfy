/** The project routes of donate/routes.py: looking a project up by the name in its URL
    (`get_project`) and creating a project with its first account (`new_project`). */
module Projects {
  import opened Wrappers
  import opened Forms
  import opened Ledger

  /** The pages the project routes render. */
  datatype Page =
    | NewProjectForm
    | ProjectView(title: string, project: Project)

  /** The exceptions the lookup route raises. */
  datatype ProjectRouteError =
    | NewProjectArity
    | DuplicateProjectName

  /** `get_project(project_name)` as written: the zero-match branch calls
      `new_project(project_name)`, but `new_project` takes no parameter, so that call raises
      TypeError instead of rendering the page. */
  function GetProjectAsWritten(projects: seq<Project>, name: string): (r: Result<Page, ProjectRouteError>)
    ensures r == Err(NewProjectArity) <==> forall p :: p in projects ==> p.name != name
    ensures r.Ok? ==>
      r.value.ProjectView? && r.value.title == name && r.value.project in projects && r.value.project.name == name
  {
    var hits := Select(projects, (p: Project) => p.name == name);
    SelectEmptyIff(projects, (p: Project) => p.name == name);
    if |hits| == 0 then Err(NewProjectArity)
    else if |hits| == 1 then
      assert hits[0] in hits;
      Ok(ProjectView(name, hits[0]))
    else Err(DuplicateProjectName)
  }

  /** `get_project(project_name)` as its documentation describes it: the new-project page when
      no project has that name, the project's page when exactly one has, and ValueError when
      several have. */
  function GetProject(projects: seq<Project>, name: string): (r: Result<Page, ProjectRouteError>)
    ensures r == Ok(NewProjectForm) <==> forall p :: p in projects ==> p.name != name
    ensures r.Ok? && r.value.ProjectView? ==>
      r.value.title == name && r.value.project in projects && r.value.project.name == name
    ensures r.Err? ==> r.error == DuplicateProjectName
  {
    var hits := Select(projects, (p: Project) => p.name == name);
    SelectEmptyIff(projects, (p: Project) => p.name == name);
    if |hits| == 0 then Ok(NewProjectForm)
    else if |hits| == 1 then
      assert hits[0] in hits;
      Ok(ProjectView(name, hits[0]))
    else Err(DuplicateProjectName)
  }

  /** The three outcomes of the project lookup, stated on the table rather than on the query:
      no row named `name` gives the new-project page, a single row gives that project's page
      titled with the name, and two rows give the duplicate-name error. */
  lemma GetProjectDispatch(projects: seq<Project>, name: string)
    ensures (forall p :: p in projects ==> p.name != name) <==> GetProject(projects, name) == Ok(NewProjectForm)
    ensures GetProject(projects, name).Ok? && GetProject(projects, name).value.ProjectView? ==>
      var v := GetProject(projects, name).value;
      v.title == name && v.project in projects && v.project.name == name
    ensures UniqueMatch(projects, (p: Project) => p.name == name) <==>
      GetProject(projects, name).Ok? && GetProject(projects, name).value.ProjectView?
    ensures Ambiguous(projects, (p: Project) => p.name == name) <==>
      GetProject(projects, name) == Err(DuplicateProjectName)
  {
    var isNamed := (p: Project) => p.name == name;
    var hits := Select(projects, (p: Project) => p.name == name);
    SelectAtLeastTwo(projects, isNamed);
    GetOneOkIffUnique(projects, isNamed);
    assert GetOne(projects, isNamed).Ok? <==> |hits| == 1;
    if |hits| > 0 {
      assert hits[0] in hits;
    }
  }

  /** The source as written never shows the new-project page: a name that no project has
      ends in TypeError, while the corrected lookup renders the page. */
  lemma {:induction false} UnknownProjectNameRaises(projects: seq<Project>, name: string)
    requires forall p :: p in projects ==> p.name != name
    ensures GetProjectAsWritten(projects, name) == Err(NewProjectArity)
    ensures GetProject(projects, name) == Ok(NewProjectForm)
  {
    SelectEmptyIff(projects, (p: Project) => p.name == name);
  }

  /** Outside the zero-match branch, the written and the corrected lookups agree. */
  lemma GetProjectAgreesWhenNamed(projects: seq<Project>, name: string)
    requires exists p :: p in projects && p.name == name
    ensures GetProjectAsWritten(projects, name) == GetProject(projects, name)
  {
    var q :| q in projects && q.name == name;
    assert q in Select(projects, (p: Project) => p.name == name);
  }

  /** The name given to a project's first account: "<project>_<code>_acct". */
  function AccountNameFor(projectName: string, ccyCode: string): (n: string)
    ensures |n| == |projectName| + |ccyCode| + 6
    ensures n[..|projectName|] == projectName
  {
    projectName + "_" + ccyCode + "_acct"
  }

  /** Form keys read by the project-creation route, in the order it reads them. */
  const GoalKey := "goal"
  const CcyKey := "ccy"
  const DescKey := "desc"
  const ProjectNameKey := "project_name"

  /** The exceptions the project-creation route raises: KeyError for an absent form key,
      ValueError when the goal is not an integer, and the single-row currency lookup's. */
  datatype NewProjectError =
    | MissingField(key: string)
    | GoalNotInteger
    | CurrencyNotUnique(cause: LookupError)

  /** `new_project()` on a POST: reads the goal (converted by `parseInt`, which stands for
      Python's `int`), currency code, description and name from the form, finds the one
      currency with that code and builds the project with a single new account in it. */
  function NewProject(f: Form, parseInt: string -> Option<int>, currencies: seq<Currency>)
    : (r: Result<Project, NewProjectError>)
    ensures r.Ok? ==>
      && |r.value.accounts| == 1
      && r.value.accounts[0].id == None
      && r.value.accounts[0].ccy in currencies
      && r.value.accounts[0].name == AccountNameFor(r.value.name, r.value.accounts[0].ccy.code)
    ensures r.Err? && r.error.MissingField? ==> !Contains(f, r.error.key)
  {
    match Lookup(f, GoalKey)
    case None => Err(MissingField(GoalKey))
    case Some(goalText) =>
      match parseInt(goalText)
      case None => Err(GoalNotInteger)
      case Some(goal) =>
        match Lookup(f, CcyKey)
        case None => Err(MissingField(CcyKey))
        case Some(code) =>
          match Lookup(f, DescKey)
          case None => Err(MissingField(DescKey))
          case Some(desc) =>
            match Lookup(f, ProjectNameKey)
            case None => Err(MissingField(ProjectNameKey))
            case Some(name) =>
              match GetOne(currencies, (c: Currency) => c.code == code)
              case Err(e) => Err(CurrencyNotUnique(e))
              case Ok(ccy) =>
                Ok(Project(name, desc, goal, [Account(None, AccountNameFor(name, code), ccy)]))
  }

  /** A created project carries the submitted name, description and goal, and exactly one
      new, unstored account, named after the project and the currency code and held in the
      one currency with that code. */
  lemma NewProjectShape(f: Form, parseInt: string -> Option<int>, currencies: seq<Currency>)
    ensures NewProject(f, parseInt, currencies).Ok? ==>
      var p := NewProject(f, parseInt, currencies).value;
      && Contains(f, GoalKey) && Contains(f, CcyKey) && Contains(f, DescKey) && Contains(f, ProjectNameKey)
      && p.name == GetList(f, ProjectNameKey)[0] && p.desc == GetList(f, DescKey)[0]
      && parseInt(GetList(f, GoalKey)[0]) == Some(p.goal)
      && |p.accounts| == 1
      && p.accounts[0].id == None
      && p.accounts[0].name == AccountNameFor(p.name, GetList(f, CcyKey)[0])
      && p.accounts[0].ccy in currencies
      && p.accounts[0].ccy.code == GetList(f, CcyKey)[0]
      && UniqueMatch(currencies, (c: Currency) => c.code == GetList(f, CcyKey)[0])
  {
    var r := NewProject(f, parseInt, currencies);
    if r.Ok? {
      assert Lookup(f, GoalKey).Some? && Lookup(f, CcyKey).Some?;
      assert Lookup(f, DescKey).Some? && Lookup(f, ProjectNameKey).Some?;
      LookupIsHeadOfList(f, GoalKey);
      LookupIsHeadOfList(f, CcyKey);
      LookupIsHeadOfList(f, DescKey);
      LookupIsHeadOfList(f, ProjectNameKey);
      var code := Lookup(f, CcyKey).value;
      var isCcy := (c: Currency) => c.code == code;
      GetOneOkIffUnique(currencies, isCcy);
      var ccy := GetOne(currencies, isCcy).value;
      var name := Lookup(f, ProjectNameKey).value;
      assert r.value.name == name && r.value.desc == Lookup(f, DescKey).value;
      assert r.value.accounts == [Account(None, AccountNameFor(name, code), ccy)];
    }
  }

  /** Account names determine the project name and currency code they were built from, for
      codes of equal length (currency codes are three characters), so projects with distinct
      names never compete for the same account name. */
  lemma AccountNameInjective(n1: string, c1: string, n2: string, c2: string)
    requires |c1| == |c2|
    requires AccountNameFor(n1, c1) == AccountNameFor(n2, c2)
    ensures n1 == n2 && c1 == c2
  {
    var a1, a2 := AccountNameFor(n1, c1), AccountNameFor(n2, c2);
    assert |n1| == |n2|;
    assert n1 == a1[..|n1|] == a2[..|n2|] == n2;
    assert c1 == a1[|n1| + 1..|n1| + 1 + |c1|];
    assert c2 == a2[|n2| + 1..|n2| + 1 + |c2|];
  }

  /** A project just created in the single currency can receive a donation: the receiver
      loop picks its one account. */
  lemma NewProjectReceivesDonations(f: Form, parseInt: string -> Option<int>, currencies: seq<Currency>)
    requires NewProject(f, parseInt, currencies).Ok?
    requires Lookup(f, CcyKey) == Some(SingleCcyCode)
    ensures
      var p := NewProject(f, parseInt, currencies).value;
      LastWithCode(p.accounts, SingleCcyCode) == Some(0)
  {
  }
}
