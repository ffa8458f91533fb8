/**
 * The command `main` (main.py): the missing-key check, the model override,
 * scraping, the analysis pipeline, and where the report is written.
 *
 * Everything outside the process is a parameter: `fetch` is the page the URL
 * yields (or the error fetching it raised), `generate(model, stage, input)`
 * is what that stage's agent replies under that model, `buildReport` formats
 * the report, and `makeDirs`/`writeFile` are the two file-system calls, each
 * giving the error it raised, if any. The method records the effects it
 * performs, in order, as actions.
 */
module Cli {
  import opened Common
  import Config
  import Scraper
  import Agents
  import Slug

  const ReportExtension: string := ".md"

  // ---------------------------------------------------------------------------
  // Paths

  predicate IsAbsolute(path: string) {
    path != [] && path[0] == '/'
  }

  /**
   * `os.path.join(dir, name)` on POSIX: an absolute name replaces the directory;
   * otherwise a '/' is put between the two unless the directory is empty or
   * already ends with one.
   */
  function PathJoin(dir: string, name: string): string {
    if IsAbsolute(name) then name
    else if dir == [] || dir[|dir| - 1] == '/' then dir + name
    else dir + "/" + name
  }

  /**
   * A joined path is the name itself when that is absolute; otherwise the
   * directory, one '/' exactly when the directory is non-empty and does not
   * end with one, and the name. Either way it ends with the name.
   */
  lemma PathJoinShape(dir: string, name: string)
    ensures var r := PathJoin(dir, name);
      && (IsAbsolute(name) ==> r == name)
      && (!IsAbsolute(name) ==> r == dir + name || r == dir + "/" + name)
      && (!IsAbsolute(name) ==> (r == dir + name <==> dir == [] || dir[|dir| - 1] == '/'))
      && |name| <= |r| && r[|r| - |name|..] == name
  {
  }

  /** `os.path.basename`: the part of the path after its last '/'. */
  function Basename(path: string): (r: string)
    ensures |r| <= |path| && r == path[|path| - |r|..]
    ensures '/' !in r
    decreases |path|
  {
    if path == [] || path[|path| - 1] == '/' then []
    else Basename(path[..|path| - 1]) + [path[|path| - 1]]
  }

  /** Appending a name without '/' to a path extends its last component by that name. */
  lemma {:induction false} BasenameAppend(path: string, name: string)
    requires '/' !in name
    ensures Basename(path + name) == Basename(path) + name
    decreases |name|
  {
    if name != [] {
      var init := name[..|name| - 1];
      assert (path + name)[..|path + name| - 1] == path + init;
      BasenameAppend(path, init);
      assert init + [name[|name| - 1]] == name;
    } else {
      assert path + name == path;
    }
  }

  /**
   * The file a joined path names is the name itself, whatever the directory,
   * as long as the name is a single relative component.
   */
  lemma JoinedBasename(dir: string, name: string)
    requires name != [] && '/' !in name
    ensures Basename(PathJoin(dir, name)) == name
  {
    var r := PathJoin(dir, name);
    PathJoinShape(dir, name);
    assert !IsAbsolute(name) by {
      assert name[0] in name;
    }
    if r == dir + name {
      BasenameAppend(dir, name);
      assert Basename(dir) == [];
    } else {
      BasenameAppend(dir + "/", name);
      assert Basename(dir + "/") == [];
    }
  }

  /**
   * The report's path: `--output` verbatim when it was given, otherwise the
   * slug of the title with ".md", inside the output directory.
   */
  function OutputPath(output: Option<string>, outputDir: string, title: string): string {
    match output
    case Some(path) => path
    case None => PathJoin(outputDir, Slug.Slug(title) + ReportExtension)
  }

  /** A slug followed by ".md" is one relative path component of at most 63 characters. */
  lemma ReportFileName(slug: string)
    requires |slug| <= Slug.MaxTitle && forall i :: 0 <= i < |slug| ==> Slug.IsSlugChar(slug[i])
    ensures var name := slug + ReportExtension;
      name != [] && !IsAbsolute(name) && '/' !in name && |name| <= Slug.MaxTitle + |ReportExtension|
  {
    var name := slug + ReportExtension;
    forall i | 0 <= i < |name|
      ensures name[i] != '/'
    {
      if i < |slug| {
        assert Slug.IsSlugChar(slug[i]);
      } else {
        assert name[i] == ReportExtension[i - |slug|];
      }
    }
    assert name[0] != '/';
  }

  /**
   * Without `--output`, the report goes directly inside the output directory:
   * the path starts with the directory, adds at most one '/', and its last
   * component is exactly the slug followed by ".md". With `--output`, the
   * given path is used as it is.
   */
  lemma OutputPlacement(output: Option<string>, outputDir: string, title: string)
    ensures output.Some? ==> OutputPath(output, outputDir, title) == output.value
    ensures output.None? ==>
      var path, name := OutputPath(output, outputDir, title), Slug.Slug(title) + ReportExtension;
      && (path == outputDir + name || path == outputDir + "/" + name)
      && (path == outputDir + name <==> outputDir == [] || outputDir[|outputDir| - 1] == '/')
      && |name| <= Slug.MaxTitle + |ReportExtension|
      && Basename(path) == name
  {
    if output.None? {
      var slug := Slug.Slug(title);
      ReportFileName(slug);
      PathJoinShape(outputDir, slug + ReportExtension);
      JoinedBasename(outputDir, slug + ReportExtension);
    }
  }

  // ---------------------------------------------------------------------------
  // The command

  /** The effects `main` performs, in the order it performs them. */
  datatype Action =
    | Fetch(url: string)                    // `scrape_article(url)` requests the page
    | Pipeline(event: Agents.Event)         // a progress notification or an agent run
    | MakeDirs(dir: string)                 // `os.makedirs(dir, exist_ok=True)`
    | Write(path: string, report: string)   // the report written to path

  /** How the process ends: the missing-key exit, an exception that escapes, or a saved report. */
  datatype Exit = MissingKey | Raised(error: string) | Saved(path: string)

  /** The process exit status: 0 only when the report was saved. */
  function Status(exit: Exit): (code: nat)
    ensures code == 0 <==> exit.Saved?
    ensures code <= 1
  {
    if exit.Saved? then 0 else 1
  }

  function Lift(trace: seq<Agents.Event>): (r: seq<Action>)
    ensures |r| == |trace| && forall i :: 0 <= i < |trace| ==> r[i] == Pipeline(trace[i])
  {
    seq(|trace|, i requires 0 <= i < |trace| => Pipeline(trace[i]))
  }

  /** What each stage's agent does under the given model. */
  function Runner(generate: (string, Agents.Stage, string) -> Result<string>, model: string)
    : (Agents.Stage, string) -> Result<string>
  {
    (stage, input) => generate(model, stage, input)
  }

  /** `if model:` — a given, non-empty `--model` wins. */
  function ChosenModel(configured: string, modelFlag: Option<string>): string {
    if modelFlag.Some? && modelFlag.value != "" then modelFlag.value else configured
  }

  /**
   * The effects of saving the report: the directory creation for the default
   * path, then the write, which a failed creation prevents.
   */
  function Saving(output: Option<string>, outputDir: string, dirsFailed: bool, path: string, report: string)
    : seq<Action>
  {
    if output.Some? then [Write(path, report)]
    else if dirsFailed then [MakeDirs(outputDir)]
    else [MakeDirs(outputDir), Write(path, report)]
  }

  /** How saving ends: the error the directory creation or else the write raised, or the saved path. */
  function SaveExit(output: Option<string>, outputDir: string, path: string, report: string,
                    makeDirs: string -> Option<string>, writeFile: (string, string) -> Option<string>): Exit
  {
    if output.None? && makeDirs(outputDir).Some? then Raised(makeDirs(outputDir).value)
    else if writeFile(path, report).Some? then Raised(writeFile(path, report).value)
    else Saved(path)
  }

  /** The effects that follow a successful scrape: the pipeline's events, then saving, only when the analysis completed. */
  function Effects(trace: seq<Agents.Event>, analysed: bool, output: Option<string>,
                   outputDir: string, dirsFailed: bool, path: string, report: string): seq<Action> {
    Lift(trace) + if analysed then Saving(output, outputDir, dirsFailed, path, report) else []
  }

  /**
   * The order of the effects: the pipeline's events come first; the output
   * directory is created exactly when the analysis completed and no
   * `--output` was given; the report is written at most once, as the last
   * effect, only after a complete analysis, and never after a failed
   * directory creation.
   */
  lemma EffectsOrder(trace: seq<Agents.Event>, analysed: bool, output: Option<string>,
                     outputDir: string, dirsFailed: bool, path: string, report: string)
    ensures var r := Effects(trace, analysed, output, outputDir, dirsFailed, path, report);
      && |r| >= |trace| && r[..|trace|] == Lift(trace)
      && ((exists i :: 0 <= i < |r| && r[i].MakeDirs?) <==> analysed && output.None?)
      && (forall i :: 0 <= i < |r| && r[i].MakeDirs? ==> r[i] == MakeDirs(outputDir))
      && (forall i :: 0 <= i < |r| && r[i].Write? ==>
            && i == |r| - 1 && r[i] == Write(path, report)
            && analysed && !(output.None? && dirsFailed))
      && (r != [] && r[|r| - 1].Write? <==> analysed && !(output.None? && dirsFailed))
  {
    var r := Effects(trace, analysed, output, outputDir, dirsFailed, path, report);
    var head := Lift(trace);
    var tail := r[|head|..];
    assert r == head + tail;
    assert forall i :: 0 <= i < |head| ==> !r[i].MakeDirs? && !r[i].Write? by {
      assert forall i :: 0 <= i < |head| ==> head[i] == Pipeline(trace[i]);
    }
    assert r[..|trace|] == Lift(trace);
    if analysed && output.None? {
      assert r[|head|].MakeDirs?;
    }
  }

  /**
   * A report is written only when all four stages ran and returned: the
   * effects that follow a pipeline contain a write only if it completed.
   */
  lemma ReportAfterAnalysis(title: string, content: string, hasProgress: bool,
                            run: (Agents.Stage, string) -> Result<string>,
                            trace: seq<Agents.Event>, analysis: Result<Agents.Analysis>,
                            output: Option<string>, outputDir: string, dirsFailed: bool,
                            path: string, report: string)
    requires trace == Agents.TraceFrom(hasProgress, run, Agents.ArticleText(title, content), [])
    requires analysis == Agents.OutcomeFrom(run, Agents.ArticleText(title, content), [])
    ensures var r := Effects(trace, analysis.Success?, output, outputDir, dirsFailed, path, report);
      forall i :: 0 <= i < |r| && r[i].Write? ==>
        && |Agents.Runs(trace)| == Agents.TotalSteps
        && forall k :: 0 <= k < Agents.TotalSteps ==> Agents.Succeeded(run, Agents.Runs(trace)[k])
  {
    Agents.PipelineKept(title, content, hasProgress, run);
    EffectsOrder(trace, analysis.Success?, output, outputDir, dirsFailed, path, report);
  }

  /**
   * What `main` did once the page was scraped: the pipeline ran on the
   * article's title and content with the chosen model and a progress
   * callback; the effects are those of Effects; and the process ends with the
   * error the analysis raised, or else as saving ends.
   */
  ghost predicate Finished(article: Scraper.Article, model: string, output: Option<string>, outputDir: string,
                           generate: (string, Agents.Stage, string) -> Result<string>,
                           buildReport: (string, string, Agents.Analysis) -> string,
                           makeDirs: string -> Option<string>, writeFile: (string, string) -> Option<string>,
                           actions: seq<Action>, exit: Exit,
                           trace: seq<Agents.Event>, analysis: Result<Agents.Analysis>) {
    var path := OutputPath(output, outputDir, article.title);
    var report := if analysis.Success? then buildReport(article.title, article.url, analysis.value) else "";
    var dirsFailed := output.None? && makeDirs(outputDir).Some?;
    && trace == Agents.TraceFrom(true, Runner(generate, model), Agents.ArticleText(article.title, article.content), [])
    && analysis == Agents.OutcomeFrom(Runner(generate, model), Agents.ArticleText(article.title, article.content), [])
    && actions == Effects(trace, analysis.Success?, output, outputDir, dirsFailed, path, report)
    && exit == if analysis.Failure? then Raised(analysis.error)
               else SaveExit(output, outputDir, path, report, makeDirs, writeFile)
  }

  /**
   * The report's last steps in `main`: without `--output`, create the output
   * directory and name the file after the title's slug; then write the report.
   */
  method SaveReport(title: string, report: string, output: Option<string>, outputDir: string,
                    makeDirs: string -> Option<string>, writeFile: (string, string) -> Option<string>)
    returns (actions: seq<Action>, exit: Exit)
    ensures var path := OutputPath(output, outputDir, title);
      && actions == Saving(output, outputDir, output.None? && makeDirs(outputDir).Some?, path, report)
      && exit == SaveExit(output, outputDir, path, report, makeDirs, writeFile)
  {
    actions := [];
    if output.None? {
      actions := actions + [MakeDirs(outputDir)];
      var failed := makeDirs(outputDir);
      if failed.Some? {
        return actions, Raised(failed.value);
      }
    }
    var path := OutputPath(output, outputDir, title);
    actions := actions + [Write(path, report)];
    var failed := writeFile(path, report);
    if failed.Some? {
      return actions, Raised(failed.value);
    }
    exit := Saved(path);
  }

  /**
   * The part of `main` after scraping: the pipeline with a progress callback,
   * the report, and saving it.
   */
  method AnalyzeAndSave(article: Scraper.Article, model: string, output: Option<string>, outputDir: string,
                        generate: (string, Agents.Stage, string) -> Result<string>,
                        buildReport: (string, string, Agents.Analysis) -> string,
                        makeDirs: string -> Option<string>, writeFile: (string, string) -> Option<string>)
    returns (actions: seq<Action>, exit: Exit, ghost trace: seq<Agents.Event>, ghost analysis: Result<Agents.Analysis>)
    ensures Finished(article, model, output, outputDir, generate, buildReport, makeDirs, writeFile,
                     actions, exit, trace, analysis)
  {
    var events, result := Agents.AnalyzeArticle(article.title, article.content, true, Runner(generate, model));
    trace, analysis := events, result;
    if result.Failure? {
      return Lift(events), Raised(result.error), trace, analysis;
    }
    var report := buildReport(article.title, article.url, result.value);
    var saving;
    saving, exit := SaveReport(article.title, report, output, outputDir, makeDirs, writeFile);
    actions := Lift(events) + saving;
  }

  /**
   * What `main` did once the key check passed: the fetch came first; a failed
   * fetch ended the process with its error; otherwise the rest is Finished for
   * the scraped article. The process never ends with the missing-key exit.
   */
  ghost predicate Executed(url: string, fetched: Result<Scraper.Page>, model: string,
                           output: Option<string>, outputDir: string,
                           generate: (string, Agents.Stage, string) -> Result<string>,
                           buildReport: (string, string, Agents.Analysis) -> string,
                           makeDirs: string -> Option<string>, writeFile: (string, string) -> Option<string>,
                           actions: seq<Action>, exit: Exit,
                           trace: seq<Agents.Event>, analysis: Result<Agents.Analysis>) {
    && actions != [] && actions[0] == Fetch(url) && exit != MissingKey
    && (fetched.Failure? ==> actions == [Fetch(url)] && exit == Raised(fetched.error))
    && (fetched.Success? ==>
          Finished(Scraper.ScrapeArticle(url, fetched).value, model, output, outputDir,
                   generate, buildReport, makeDirs, writeFile, actions[1..], exit, trace, analysis))
  }

  /**
   * The effects after the scrape: the report is written at most once, as the
   * last of them, to OutputPath, and only when all four stages returned; the
   * output directory is created only for the default path after a complete
   * analysis; and a saved report is the one just written.
   */
  lemma FinishedOrder(article: Scraper.Article, model: string, output: Option<string>, outputDir: string,
                      generate: (string, Agents.Stage, string) -> Result<string>,
                      buildReport: (string, string, Agents.Analysis) -> string,
                      makeDirs: string -> Option<string>, writeFile: (string, string) -> Option<string>,
                      actions: seq<Action>, exit: Exit,
                      trace: seq<Agents.Event>, analysis: Result<Agents.Analysis>)
    requires Finished(article, model, output, outputDir, generate, buildReport, makeDirs, writeFile,
                      actions, exit, trace, analysis)
    ensures forall i :: 0 <= i < |actions| && actions[i].Write? ==>
      && i == |actions| - 1 && analysis.Success?
      && |Agents.Runs(trace)| == Agents.TotalSteps
      && actions[i].path == OutputPath(output, outputDir, article.title)
    ensures forall i :: 0 <= i < |actions| && actions[i].MakeDirs? ==>
      analysis.Success? && output.None? && actions[i] == MakeDirs(outputDir)
    ensures exit.Saved? ==>
      actions != [] && actions[|actions| - 1].Write? && exit.path == actions[|actions| - 1].path
  {
    var path := OutputPath(output, outputDir, article.title);
    var report := if analysis.Success? then buildReport(article.title, article.url, analysis.value) else "";
    var dirsFailed := output.None? && makeDirs(outputDir).Some?;
    EffectsOrder(trace, analysis.Success?, output, outputDir, dirsFailed, path, report);
    ReportAfterAnalysis(article.title, article.content, true, Runner(generate, model), trace, analysis,
                        output, outputDir, dirsFailed, path, report);
    if exit.Saved? {
      assert analysis.Success? && !dirsFailed && exit == Saved(path);
    }
  }

  /**
   * The order `main` keeps: the fetch is the first effect; the report is
   * written at most once, as the last effect, to OutputPath, and only after
   * the scrape succeeded and all four stages returned; the output directory
   * is created only for the default path after a complete analysis; and a
   * saved report is the one just written.
   */
  lemma ExecutionOrder(url: string, fetched: Result<Scraper.Page>, model: string,
                       output: Option<string>, outputDir: string,
                       generate: (string, Agents.Stage, string) -> Result<string>,
                       buildReport: (string, string, Agents.Analysis) -> string,
                       makeDirs: string -> Option<string>, writeFile: (string, string) -> Option<string>,
                       actions: seq<Action>, exit: Exit,
                       trace: seq<Agents.Event>, analysis: Result<Agents.Analysis>)
    requires Executed(url, fetched, model, output, outputDir, generate, buildReport, makeDirs, writeFile,
                      actions, exit, trace, analysis)
    ensures actions[0] == Fetch(url)
    ensures forall i :: 0 <= i < |actions| && actions[i].Write? ==>
      && i == |actions| - 1 && fetched.Success? && analysis.Success?
      && |Agents.Runs(trace)| == Agents.TotalSteps
      && actions[i].path == OutputPath(output, outputDir, Scraper.ScrapeArticle(url, fetched).value.title)
    ensures forall i :: 0 <= i < |actions| && actions[i].MakeDirs? ==>
      fetched.Success? && analysis.Success? && output.None? && actions[i] == MakeDirs(outputDir)
    ensures exit.Saved? ==>
      actions[|actions| - 1].Write? && exit.path == actions[|actions| - 1].path
  {
    if fetched.Success? {
      var rest := actions[1..];
      FinishedOrder(Scraper.ScrapeArticle(url, fetched).value, model, output, outputDir,
                    generate, buildReport, makeDirs, writeFile, rest, exit, trace, analysis);
      forall i | 0 <= i < |actions| && (actions[i].Write? || actions[i].MakeDirs?)
        ensures 1 <= i && actions[i] == rest[i - 1]
      {
      }
    }
  }

  /** The part of `main` after the key check and the override: scrape, then AnalyzeAndSave. */
  method Execute(url: string, model: string, output: Option<string>, outputDir: string,
                 fetch: string -> Result<Scraper.Page>,
                 generate: (string, Agents.Stage, string) -> Result<string>,
                 buildReport: (string, string, Agents.Analysis) -> string,
                 makeDirs: string -> Option<string>, writeFile: (string, string) -> Option<string>)
    returns (actions: seq<Action>, exit: Exit, ghost trace: seq<Agents.Event>, ghost analysis: Result<Agents.Analysis>)
    ensures Executed(url, fetch(url), model, output, outputDir, generate, buildReport, makeDirs, writeFile,
                     actions, exit, trace, analysis)
  {
    trace, analysis := [], Failure("");
    var scraped := Scraper.ScrapeArticle(url, fetch(url));
    if scraped.Failure? {
      return [Fetch(url)], Raised(scraped.error), trace, analysis;
    }
    var rest;
    rest, exit, trace, analysis := AnalyzeAndSave(scraped.value, model, output, outputDir,
                                                  generate, buildReport, makeDirs, writeFile);
    actions := [Fetch(url)] + rest;
    assert actions[1..] == rest;
    assert exit != MissingKey;
  }

  /**
   * `main(url, output, model)`: without an API key, exit with status 1 before
   * anything else happens; otherwise apply a non-empty `--model` to the
   * settings, then Execute with the resulting model. `trace` and `analysis`
   * are the pipeline's events and result when it ran.
   */
  method RunCommand(settings: Config.Settings, url: string, output: Option<string>, modelFlag: Option<string>,
                    fetch: string -> Result<Scraper.Page>,
                    generate: (string, Agents.Stage, string) -> Result<string>,
                    buildReport: (string, string, Agents.Analysis) -> string,
                    makeDirs: string -> Option<string>,
                    writeFile: (string, string) -> Option<string>)
    returns (actions: seq<Action>, exit: Exit, ghost trace: seq<Agents.Event>, ghost analysis: Result<Agents.Analysis>)
    modifies settings
    ensures exit == MissingKey <==> settings.apiKey == ""
    ensures settings.apiKey == "" ==> actions == [] && settings.model == old(settings.model)
    ensures settings.apiKey != "" ==> settings.model == ChosenModel(old(settings.model), modelFlag)
    ensures settings.apiKey != "" ==>
      Executed(url, fetch(url), settings.model, output, settings.outputDir, generate, buildReport,
               makeDirs, writeFile, actions, exit, trace, analysis)
    ensures settings.apiKey == "" ==> Status(exit) == 1
    ensures Status(exit) == 0 ==>
      actions != [] && actions[|actions| - 1].Write? && actions[|actions| - 1].path == exit.path
  {
    trace, analysis := [], Failure("");
    if settings.apiKey == "" {
      return [], MissingKey, trace, analysis;
    }
    if modelFlag.Some? && modelFlag.value != "" {
      settings.model := modelFlag.value;
    }
    actions, exit, trace, analysis := Execute(url, settings.model, output, settings.outputDir,
                                              fetch, generate, buildReport, makeDirs, writeFile);
    ExecutionOrder(url, fetch(url), settings.model, output, settings.outputDir, generate, buildReport,
                   makeDirs, writeFile, actions, exit, trace, analysis);
  }
}
