/**
 * The project analyzer: reads the dependency maps of package.json and the presence of a few
 * top-level entries, and produces the project's structural fingerprint (framework, router
 * style, TypeScript flag, styling / state-management / UI-library lists).
 * Reading the disk and parsing JSON are outside the model: the analyzer receives what they gave.
 */
module ProjectAnalyzer {

  /** A dependency map of package.json: package name to version string. */
  type Deps = map<string, string>

  datatype PackageJson = PackageJson(dependencies: Deps, devDependencies: Deps)

  /** What reading package.json gave: no such file, a file whose parsing (or the reading of
      its dependency fields) threw, or the two dependency maps (missing fields read as {}). */
  datatype PackageSource = NoPackageJson | Unparsable(message: string) | Parsed(pkg: PackageJson)

  /** The facts about the project root the analyzer looks at. */
  datatype ProjectLayout = ProjectLayout(
    package: PackageSource, hasTsconfig: bool, hasAppDir: bool, hasPagesDir: bool)

  datatype ProjectInfo = ProjectInfo(
    framework: string,
    routerType: string,
    hasTypeScript: bool,
    styling: seq<string>,
    stateManagement: seq<string>,
    uiLibraries: seq<string>,
    dependencies: Deps,
    devDependencies: Deps)

  const UNKNOWN := "Unknown"
  const NEXT_JS := "Next.js"
  const REACT := "React"
  const VUE := "Vue"
  const ANGULAR := "Angular"
  const APP_ROUTER := "App Router"
  const PAGES_ROUTER := "Pages Router"

  /** The value every field has before detection runs. */
  const DefaultInfo := ProjectInfo(UNKNOWN, UNKNOWN, false, [], [], [], map[], map[])

  /** allDeps.name is truthy: the key is present with a non-empty version string. */
  predicate Has(all: Deps, name: string) {
    name in all && all[name] != ""
  }

  /** { ...dependencies, ...devDependencies }: devDependencies win on a shared key. */
  function AllDeps(pkg: PackageJson): Deps {
    pkg.dependencies + pkg.devDependencies
  }

  /** One row of a detection table: a feature, added when any of its packages is present. */
  datatype Rule = Rule(feature: string, packages: seq<string>)

  const StylingRules := [
    Rule("Tailwind CSS", ["tailwindcss"]),
    Rule("styled-components", ["styled-components"]),
    Rule("Emotion", ["@emotion/react"]),
    Rule("Sass", ["sass", "sass-loader"])]

  const StateRules := [
    Rule("Redux", ["redux", "@reduxjs/toolkit"]),
    Rule("MobX", ["mobx"]),
    Rule("Recoil", ["recoil"]),
    Rule("Zustand", ["zustand"])]

  const UiRules := [
    Rule("Material UI", ["@mui/material", "@material-ui/core"]),
    Rule("Chakra UI", ["@chakra-ui/react"]),
    Rule("Ant Design", ["antd"])]

  predicate Fires(rule: Rule, all: Deps) {
    exists i :: 0 <= i < |rule.packages| && Has(all, rule.packages[i])
  }

  /** Some rule of the table with this feature fires. */
  predicate FiresFor(rules: seq<Rule>, all: Deps, feature: string) {
    exists i :: 0 <= i < |rules| && rules[i].feature == feature && Fires(rules[i], all)
  }

  /** The labels of the rules that fire, in table order (each rule pushes at most once). */
  function Detect(rules: seq<Rule>, all: Deps): seq<string> {
    if rules == [] then []
    else (if Fires(rules[0], all) then [rules[0].feature] else []) + Detect(rules[1..], all)
  }

  /** First match wins, in the order Next.js, React, Vue, Angular. */
  function Framework(all: Deps): string {
    if Has(all, "next") then NEXT_JS
    else if Has(all, "react") then REACT
    else if Has(all, "vue") then VUE
    else if Has(all, "angular") then ANGULAR
    else UNKNOWN
  }

  /** The router style is looked at only for Next.js: app/ first, then pages/. */
  function RouterType(framework: string, hasAppDir: bool, hasPagesDir: bool): string {
    if framework != NEXT_JS then UNKNOWN
    else if hasAppDir then APP_ROUTER
    else if hasPagesDir then PAGES_ROUTER
    else UNKNOWN
  }

  /** analyzeProject. When package.json cannot be parsed the defaults are returned as they
      stand, before the router check; TypeScript is only detected when package.json parsed. */
  function AnalyzeProject(layout: ProjectLayout): ProjectInfo {
    match layout.package
    case NoPackageJson => DefaultInfo
    case Unparsable(_) => DefaultInfo
    case Parsed(pkg) =>
      var all := AllDeps(pkg);
      var framework := Framework(all);
      ProjectInfo(
        framework,
        RouterType(framework, layout.hasAppDir, layout.hasPagesDir),
        Has(all, "typescript") || layout.hasTsconfig,
        Detect(StylingRules, all),
        Detect(StateRules, all),
        Detect(UiRules, all),
        pkg.dependencies,
        pkg.devDependencies)
  }

  // ---------------------------------------------------------------------------
  // properties

  /** The framework precedence, stated as one equivalence per outcome. */
  lemma FrameworkPrecedence(layout: ProjectLayout)
    requires layout.package.Parsed?
    ensures var all, f := AllDeps(layout.package.pkg), AnalyzeProject(layout).framework;
      && (f == NEXT_JS <==> Has(all, "next"))
      && (f == REACT <==> !Has(all, "next") && Has(all, "react"))
      && (f == VUE <==> !Has(all, "next") && !Has(all, "react") && Has(all, "vue"))
      && (f == ANGULAR <==> !Has(all, "next") && !Has(all, "react") && !Has(all, "vue")
                            && Has(all, "angular"))
      && (f == UNKNOWN <==> !Has(all, "next") && !Has(all, "react") && !Has(all, "vue")
                            && !Has(all, "angular"))
  {
  }

  /** A router style is reported only for Next.js projects; app/ takes precedence over pages/. */
  lemma RouterOnlyForNext(layout: ProjectLayout)
    ensures var info := AnalyzeProject(layout);
      && (info.routerType != UNKNOWN ==> info.framework == NEXT_JS)
      && (info.framework == NEXT_JS ==>
            (info.routerType == APP_ROUTER <==> layout.hasAppDir)
            && (info.routerType == PAGES_ROUTER <==> !layout.hasAppDir && layout.hasPagesDir))
  {
  }

  /** Without a usable package.json nothing is detected, whatever the directory holds. */
  lemma NoPackageNoDetection(layout: ProjectLayout)
    requires !layout.package.Parsed?
    ensures AnalyzeProject(layout) == DefaultInfo
    ensures !AnalyzeProject(layout).hasTypeScript
  {
  }

  /** A feature is detected exactly when its rule fires; labels keep table order and never repeat
      when the table's labels are distinct. */
  lemma {:induction false} DetectMembers(rules: seq<Rule>, all: Deps, feature: string)
    ensures feature in Detect(rules, all) <==> FiresFor(rules, all, feature)
  {
    if rules != [] {
      DetectMembers(rules[1..], all, feature);
      if feature in Detect(rules[1..], all) {
        var i :| 0 < i + 1 <= |rules[1..]| && rules[1..][i].feature == feature && Fires(rules[1..][i], all);
        assert rules[i + 1] == rules[1..][i];
      }
      if exists i :: 0 <= i < |rules| && rules[i].feature == feature && Fires(rules[i], all) {
        var i :| 0 <= i < |rules| && rules[i].feature == feature && Fires(rules[i], all);
        if i > 0 {
          assert rules[1..][i - 1] == rules[i];
        }
      }
    }
  }

  /** Detections are not exclusive: when every rule fires, every feature is reported, in order. */
  lemma {:induction false} DetectAll(rules: seq<Rule>, all: Deps)
    requires forall i :: 0 <= i < |rules| ==> Fires(rules[i], all)
    ensures |Detect(rules, all)| == |rules|
    ensures forall i :: 0 <= i < |rules| ==> Detect(rules, all)[i] == rules[i].feature
  {
    if rules != [] {
      DetectAll(rules[1..], all);
    }
  }

  /** The detected lists are exactly the table rows that fire. */
  lemma DetectedLists(layout: ProjectLayout, feature: string)
    requires layout.package.Parsed?
    ensures var all, info := AllDeps(layout.package.pkg), AnalyzeProject(layout);
      && (feature in info.styling <==> FiresFor(StylingRules, all, feature))
      && (feature in info.stateManagement <==> FiresFor(StateRules, all, feature))
      && (feature in info.uiLibraries <==> FiresFor(UiRules, all, feature))
  {
    var all := AllDeps(layout.package.pkg);
    DetectMembers(StylingRules, all, feature);
    DetectMembers(StateRules, all, feature);
    DetectMembers(UiRules, all, feature);
  }

  /** A devDependency entry overrides a dependency entry of the same package. */
  lemma DevDependenciesWin(pkg: PackageJson, name: string)
    requires name in pkg.devDependencies
    ensures Has(AllDeps(pkg), name) <==> pkg.devDependencies[name] != ""
  {
  }

  /** Next.js with "next" in dependencies and an app/ directory gives the App Router. */
  lemma NextAppRouterScenario()
    ensures var info := AnalyzeProject(ProjectLayout(
        Parsed(PackageJson(map["next" := "1.0.0"], map[])), false, true, false));
      info.framework == NEXT_JS && info.routerType == APP_ROUTER
  {
  }
}
