# Article analysis pipeline — a Dafny model

This project models the decision-making core of a small command-line tool. The tool fetches a
financial news article, extracts its text, and runs the text through four chat-model "agents"
(Summarizer, Insights Extractor, Risk Assessor, Scenario Predictor). It then writes a Markdown
report. Three parts are modelled:

- **The analysis pipeline** (`src/agents.py`), in `agents.dfy`, module `Agents`.
  - `analyze_article` is the method `AnalyzeArticle`. Each agent's reply is an oracle
    `run(stage, message)` that returns a reply or raises an error. The method records a trace of
    every progress notification and every agent run, in order. Its trace and result equal those of
    a stage-by-stage definition (`TraceFrom`, `OutcomeFrom`). Lemmas relate that definition to the
    runs the pipeline makes (`RunsFrom`) and to the promises of `analyze_article` (`Pipelined`).
  - The properties proved: the fixed stage order; the exact user message each stage receives; the
    notifications, each made just before its agent runs; the four-key result; and that the first
    error ends the pipeline.
  - `Agent` is a class whose client is created on first use and cached after that.
- **Field selection of `scrape_article`** (`src/scraper.py`), in `scraper.dfy`, module `Scraper`.
  - Fetching and HTML parsing are abstracted: a `Page` value holds what the parser's lookups
    return.
  - Functions choose the title, the paragraph source, the content (with its full-text fallback),
    the author and the published date.
- **The command `main`** (`main.py`), in `cli.dfy` and `slug.dfy`, modules `Cli` and `Slug`.
  - `RunCommand` makes the missing-key exit and the `--model` override on a `Settings` object.
    It then scrapes, runs the pipeline with a progress callback, and saves the report.
  - File-system calls, the fetch, the chat service and report formatting are parameters.
  - The method returns the effects it performed (fetch, pipeline events, directory creation,
    write) and how the process ends.
  - `Slug` models the file-name slug (`main.py`, lines 44-45), over ASCII character classes.

`common.dfy` (module `Common`) holds `Option`, `Result` (a value or the message of a raised
exception), Python's `s[:n]` (`Take`) and ASCII lower-casing. `config.dfy` (module `Config`) holds
the `Settings` object, built from explicit values.

Where the docstrings and the code disagree, the model follows the code:

- The docstring of `analyze_article` (src/agents.py:91) says every agent receives the output of all
  previous agents. The code gives the Risk Assessor only the insights, and the Scenario Predictor
  the insights and the risk assessment but not the summary. `Agents.StageInput` models the code.
  `Agents.SummaryNotForwarded` proves that the summary can be absent from both later messages.

Two details of the published date follow from the code of `scrape_article` (src/scraper.py:78-87)
rather than from any comment: `[:10]` gives at most ten characters, not exactly ten, and a
published-time meta without a `content` attribute gives `""`, not `None`.

## Model

| member | source | states |
|---|---|---|
| Config.Settings.constructor | src/config.py:10-13 | The settings hold the given API key, model and output directory. |
| Agents.Step | src/agents.py:95-113 | A stage's reported step number is its 1-based position in the pipeline order, between 1 and 4. |
| Agents.ArticleText | src/agents.py:93 | No ensures. MessagePrefix and StageMessages state its use as the start of every stage's message. |
| Agents.StageInput | src/agents.py:97-115 | No ensures. MessagePrefix, StageMessages and SummaryNotForwarded state what each stage's message holds. |
| Agents.MessagePrefix | src/agents.py:93-115 | Every stage's user message begins with the article text `"Title: " + title + "\n\nContent:\n" + content`. |
| Agents.SummaryNotForwarded | src/agents.py:101-115 | The Insights Extractor's message contains the summary. For a long enough summary, neither the Risk Assessor's nor the Scenario Predictor's message contains it, contrary to the docstring at line 91. |
| Agents.ChainSequenced | src/agents.py:95-115 | Dispatching runs in pipeline order, each preceded by its notification when there is a callback, gives a trace with exactly those runs, whose notifications are the announcements of those stages and each come just before their own stage's run. |
| Agents.RunsFrom | src/agents.py:95-115 | The runs the pipeline makes: at least one and at most four, and the last is the fourth or one that raised. RunsFromComposed adds that they follow the pipeline order and that every run before the last returned. |
| Agents.OutcomeMeaning | src/agents.py:117-122 | The result of a finished pipeline is a success exactly when all four runs returned. A failure carries the error the last run raised. A success maps the keys summary, insights, risk_assessment and scenarios, in that order, to the four outputs unchanged. |
| Agents.RunsFromComposed | src/agents.py:93-115 | Every run the pipeline makes is given the message its stage composes from the article text and the earlier outputs, and every run but the last returned. |
| Agents.TraceFromChain | src/agents.py:95-115 | The stage-by-stage events are exactly the runs the pipeline makes, each preceded by its notification when there is a callback. |
| Agents.OutcomeFromRuns | src/agents.py:95-122 | The stage-by-stage result is the result of the runs the pipeline makes: the first error raised, or the four outputs. |
| Agents.PipelineKept | src/agents.py:87-122 | The stage-by-stage events and result keep every promise of `analyze_article`. The agents run in the fixed order, each on its composed message and each just after its own notification. Every run but the last returned. The result is a success exactly when all four returned, a failure carries the last run's error, and a success holds the four outputs under their keys in order. |
| Agents.RunStage | src/agents.py:95-97 | One stage: the notification when there is a callback, then its agent's run on its composed message. A run that raises ends the pipeline's events and decides its result. A run that returns leaves the same events and result as the remaining stages given its output. |
| Agents.AnalyzeArticle | src/agents.py:87-122 | The events and the result are those of the stage-by-stage definition. Each stage in order is notified when a callback is given and then run on the message composed from the article and the earlier outputs. The first error ends the pipeline and is returned. Otherwise the result holds the four outputs. PipelineKept gives the promises this implies. |
| Agents.Notifications | src/agents.py:95-115 | With a callback, a complete run notifies exactly ("Summarizer",1,4), ("Insights Extractor",2,4), ("Risk Assessor",3,4), ("Scenario Predictor",4,4). Without one there are no notifications. A complete run has four runs in the fixed order. |
| Agents.StageMessages | src/agents.py:93-115 | In a complete run the four messages are written out: the article; article + summary; article + insights only; article + insights + risk assessment, without the summary. |
| Agents.Agent.constructor | src/agents.py:8-11 | A new agent has its name and system prompt and no client yet. |
| Agents.Agent.GetClient | src/agents.py:13-17 | The first access builds a client from the current API key and caches it. Later accesses return the cached client. At most one client is ever built per agent. |
| Agents.Agent.Run | src/agents.py:19-28 | The reply is the completion for a request carrying the client's key, the configured model, the agent's system prompt, the user message and temperature 0.3. The client cache is filled and kept. |
| Scraper.TitlePriority | src/scraper.py:42-48 | The title is the first h1's text if there is an h1, else the title element's text, else "". |
| Scraper.Title | src/scraper.py:42-48 | No ensures. TitlePriority and ScrapedFields state the h1-then-title rule. |
| Scraper.FirstFound | src/scraper.py:51-55 | Python's `a or b or c` over found elements: None exactly when none was found, else the first that was. |
| Scraper.ClassMatches | src/scraper.py:53 | No ensures. It is the class test that FirstMatchingDiv's contract is stated in. Non-ASCII case folds are listed under "## Left out". |
| Scraper.FirstMatchingDiv | src/scraper.py:53 | The first div whose class matches article/post/content/story: None exactly when no div matches, else the paragraphs of the first matching one. |
| Scraper.SourceParagraphs | src/scraper.py:51-60 | No ensures. ContainerPriority states the article, div, main, page order case by case. |
| Scraper.ContainerPriority | src/scraper.py:51-60 | The paragraphs come from the article element if there is one, else the first matching div, else the main element, else the whole page. |
| Scraper.Kept | src/scraper.py:62-66 | The filter returns no more paragraphs than it was given, and every one it keeps is longer than 30 characters. |
| Scraper.KeptAppend | src/scraper.py:62-66 | The filter keeps document order: filtering a concatenation is the concatenation of the filtered parts. |
| Scraper.KeptExactly | src/scraper.py:62-66 | A paragraph is kept if and only if it is in the source and longer than 30 characters. |
| Scraper.Join | src/scraper.py:64-66 | No ensures. JoinEmpty states when the join is empty. |
| Scraper.JoinedParagraphs | src/scraper.py:62-66 | No ensures. FallbackExactly states when it is empty and what the content then is. |
| Scraper.JoinEmpty | src/scraper.py:62-66 | A join of non-empty paragraphs is empty exactly when there are none. |
| Scraper.Content | src/scraper.py:62-70 | No ensures. FallbackExactly and ScrapedFields state the join-or-full-text rule. |
| Scraper.FallbackExactly | src/scraper.py:62-70 | The full-text fallback is used exactly when no source paragraph is longer than 30 characters. Otherwise the content is the non-empty join. |
| Scraper.Author | src/scraper.py:72-76 | The author is present only when the author meta exists and has a content attribute, and then it is that attribute. |
| Scraper.RawDate | src/scraper.py:86-87 | No ensures. PublishedDate's contract is stated in terms of it: the `datetime` attribute when present and non-empty, else the tag's text. |
| Scraper.PublishedDate | src/scraper.py:78-87 | The published-time meta wins over any time tag, and its content (or "") cut to at most 10 characters is the date. Otherwise the time tag's datetime, or its text when that is missing or empty, is cut the same way. The date is None when that raw value is empty or there is no time tag. A date is never longer than 10 characters. |
| Scraper.ScrapeArticle | src/scraper.py:89-95 | A fetch error propagates. Otherwise the article carries the requested URL, and its title, content, author and date are the ones Title, Content, Author and PublishedDate select from the page. The date is at most 10 characters. |
| Scraper.ScrapedFields | src/scraper.py:42-95 | A scraped article's title is the first of h1 and title that exists, else "". Its content is the page's full text when no paragraph of the chosen source is longer than 30 characters. Otherwise it is the non-empty "\n\n"-join of the paragraphs that are. |
| Common.Take | main.py:44 | Python's `s[:n]`: the first n elements, or all of s when it is shorter, as a prefix of s. |
| Common.Lower | main.py:44 | `str.lower()` on ASCII: the same length, with each character lower-cased in place. |
| Slug.DeleteUnsafe | main.py:44 | Deleting `[^\w\s-]` leaves only word, whitespace and '-' characters, and every such character of the text still occurs. It never lengthens the text and leaves a text of such characters unchanged. |
| Slug.DeleteUnsafeAppend | main.py:44 | The deletion works character by character and keeps order and count: deleting from a concatenation gives the concatenation of the two deletions. |
| Slug.TrimStart | main.py:44 | `lstrip` removes only leading whitespace, and the result does not start with whitespace. |
| Slug.TrimEnd | main.py:44 | `rstrip` removes only trailing whitespace, and the result does not end with whitespace. |
| Slug.Strip | main.py:44 | `strip` leaves no whitespace at either end and adds no character. A text without whitespace at its ends is unchanged. |
| Slug.StripMiddle | main.py:44 | `strip` returns a contiguous slice of the text, and everything before and after that slice is whitespace. |
| Slug.HyphenateShape | main.py:45 | Replacing whitespace runs by '-' leaves no whitespace, never lengthens the text, and introduces no character other than '-'. |
| Slug.HyphenateAppend | main.py:45 | The replacement works piece by piece: a text split anywhere but inside a whitespace run is hyphenated as the concatenation of its hyphenated parts. |
| Slug.HyphenateLeadingRun | main.py:45 | A leading whitespace run, however long, becomes exactly one '-'. |
| Slug.HyphenateRun | main.py:45 | Each maximal whitespace run, however long, becomes exactly one '-', and the text on either side is hyphenated on its own. With HyphenateAppend and HyphenateNoSpace this fixes the result of the replacement on every text. |
| Slug.Hyphenate | main.py:45 | No ensures. HyphenateShape, HyphenateRun, HyphenateLeadingRun, HyphenateAppend and HyphenateNoSpace fix it on every text. |
| Slug.CleanedChars | main.py:44 | After deletion, strip and lower-casing, every character is a word, whitespace or '-' character and none is upper-case. |
| Slug.Cleaned | main.py:44 | No ensures. CleanedChars and CleanedEnds state what the deletion, strip and lower-casing leave. |
| Slug.Slug | main.py:44-45 | The slug is at most 60 characters and no longer than the title. It consists only of lower-case letters, digits, '_' and '-'. |
| Slug.HyphenateNoSpace | main.py:45 | A text without whitespace is left unchanged by the whitespace-to-hyphen step. |
| Slug.CleanedEnds | main.py:44 | The cleaned title, being stripped, has no whitespace at either end. |
| Slug.HyphenateStripped | main.py:45 | On a text without whitespace at its ends, the whitespace-to-hyphen step gives an empty result exactly for an empty text and keeps the first and last characters. |
| Slug.HyphenateEnds | main.py:45 | The whitespace-to-hyphen step keeps a non-whitespace first or last character as it is. |
| Slug.SlugEnds | main.py:44-45 | The slug is empty exactly when the cleaned title is. It starts or ends with '-' only where the stripped title itself has a '-': no hyphen comes from leading or trailing whitespace. |
| Slug.SlugFixed | main.py:44-45 | A string of at most 60 slug characters is its own slug. |
| Slug.SlugIdempotent | main.py:44-45 | Computing the slug of a slug gives the same slug. |
| Cli.PathJoinShape | main.py:46 | `os.path.join` on POSIX: an absolute name replaces the directory. Otherwise the name follows the directory, with a '/' between them exactly when the directory is non-empty and does not already end with one. The result always ends with the name. |
| Cli.PathJoin | main.py:46 | No ensures. PathJoinShape states its three cases on POSIX. |
| Cli.Basename | main.py:46 | On POSIX, the last component of a path is a suffix of it and contains no '/'. |
| Cli.BasenameAppend | main.py:46 | Appending a name without '/' extends the last component by that name. |
| Cli.JoinedBasename | main.py:46 | Joining a single relative component onto any directory gives a path whose last component is that component. |
| Cli.ReportFileName | main.py:44-46 | The default file name, slug + ".md", is a single relative component of at most 63 characters. |
| Cli.OutputPath | main.py:42-46 | No ensures. OutputPlacement states where the report goes with and without `--output`. |
| Cli.OutputPlacement | main.py:42-46 | With `--output` the path is used verbatim. Otherwise the path is the output directory followed by slug + ".md", with a '/' between them exactly when the directory is non-empty and does not end with one. The file name is at most 63 characters and is the path's last component. |
| Cli.EffectsOrder | main.py:42-49 | After scraping, the pipeline's events come first. The output directory is created exactly when the analysis completed and no `--output` was given. The report is written at most once, as the last effect, and never after a failed directory creation. |
| Cli.ReportAfterAnalysis | main.py:36-49 | A report is written only if all four stages ran and returned. |
| Cli.ChosenModel | main.py:22-23 | No ensures. The body is the `if model:` test: a non-empty `--model` wins, else the configured model stays. RunCommand states that settings.model becomes this value when the key is set. |
| Cli.SaveReport | main.py:42-51 | Without `--output`, the directory is created and the file is named after the slug. Then the report is written. The first error raised ends the command. |
| Cli.AnalyzeAndSave | main.py:32-51 | The pipeline runs on the scraped title and content with a progress callback and the chosen model. The report built from its result is then saved. Any error the pipeline raises ends the command with that error, before any file-system effect. |
| Cli.FinishedOrder | main.py:36-49 | After the scrape, the report is written at most once, as the last effect, to OutputPath, and only when all four stages returned. The directory is created only for the default path after a complete analysis. A saved report is the one just written. |
| Cli.ExecutionOrder | main.py:26-51 | The fetch comes first. The report is written at most once, last, to OutputPath, and only after the scrape and all four stages succeeded. The directory is created only for the default path after a complete analysis. A saved report is the one just written. |
| Cli.Execute | main.py:26-51 | The fetch comes first. A fetch error ends the command with that error. Otherwise the rest is what AnalyzeAndSave does for the scraped article. It never ends with the missing-key exit. |
| Cli.Status | main.py:18-20 | The process exit status is 0 exactly when the report was saved and 1 otherwise, as for `SystemExit(1)` or an escaping exception. |
| Cli.RunCommand | main.py:16-51 | An empty API key ends the command with status 1 before any effect, leaving the settings unchanged. Otherwise a non-empty `--model` replaces the configured model before the analysis, and Execute follows with the resulting model. The status is 0 only when the last effect was the write of the report to the path the command reports as saved; any error raised ends it with status 1. |

## Left out

- HTTP fetching (the user agent, the 30-second timeout, `raise_for_status`): a fetch is a parameter that gives a parsed page or the error it raised.
- HTML parsing and the removal of script, style, nav, footer, header, aside, iframe and noscript elements: a `Page` holds the lookups' results after that removal. `get_text(strip=True)` and `find_all("p")` are not modelled beyond being given as values.
- The chat-completion call inside `Agent.run` is a parameter (`complete`, `run`, `generate`). The model also does not capture that the reply's `content` may be `None`.
- The texts of the four system prompts: static strings with no behaviour; `Agent` takes its prompt as a value.
- The module-level agents of `src/agents.py`: `AnalyzeArticle` runs stage replies given by an oracle rather than four `Agent` objects. Each agent's client cache is modelled by `Agent.GetClient` on its own.
- Environment and `.env` loading of the settings: `Settings` is built from explicit values, so the defaults of src/config.py:12-13 are not applied. `DefaultModel` and `DefaultOutputDir` name them for reference; no member uses them.
- Cli.PathJoin, Cli.Basename: `os.path.join` and `os.path.basename` are modelled as on POSIX (`posixpath`). Windows separators (`\`), drive letters and the Windows rules for absolute paths are not modelled.
- `build_report` (src/report.py): that file is not part of this model, so the report is a parameter computed from the title, the URL and the analysis.
- Command-line parsing and every console message (`click.echo`, including the progress lines' text): console output only.
- `os.makedirs` and writing the file are parameters that give the error they raised, if any. Their effect on a real file system is not modelled.
- Slug.DeleteUnsafe, Slug.Strip, Slug.Hyphenate: `\w`, `\s`, `strip()` and `lower()` are restricted to ASCII. Unicode letters, digits and spaces are therefore treated as characters to delete.
- Scraper.ClassMatches: a div's class matches when one of its class values contains article, post, content or story under ASCII case folding. Non-ASCII case folds of `re.I` are not modelled.
