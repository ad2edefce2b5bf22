/**
 * The click handlers that route through the modal: timeline cards (script.js:105-117),
 * the mini quiz (script.js:135-169), the research log (script.js:171-202) and the pledge
 * (script.js:204-228).
 *
 * Static form markup and the rendered research table are opaque parameters. Text that
 * the handlers splice into markup is not escaped, so wherever user or page text lands in
 * a title or a body, the focusable elements the browser finds in it are a parameter as
 * well. The fixed titles hold none.
 */
module Page {
  import opened Dom
  import opened Modal
  import opened JsText
  import opened Quiz
  import opened Records

  /** The focusable elements of each form, in document order. */
  const QuizControls: seq<string> := ["q1", "q2", "quiz-submit", "quiz-cancel"]
  const ResearchControls: seq<string> := ["add-log", "close-log"]
  const PledgeControls: seq<string> := ["pledge-name", "pledge-submit", "pledge-cancel"]

  /** `x || ''` for a value that is a string or missing. JavaScript's `||` takes the
      right operand for every falsy left one, the empty string as well as `null`; keeping
      a present string as it is agrees with that, because the empty one is `''` anyway. */
  function OrEmpty(x: Option<string>): (r: string)
    ensures r == if Truthy(x) then x.value else ""
    ensures x.Some? ==> r == x.value
  {
    if x.Some? then x.value else ""
  }

  /** The body of the quiz result dialog, for a score of at most 2. */
  function ResultHtml(score: nat): string
    requires score <= 2
  {
    "<p>You scored " + [('0' as int + score) as char] + " / 2</p>"
  }

  /** The body of the pledge confirmation. */
  function ThanksHtml(name: string): string {
    "<p>Thank you, " + name + ". Your symbolic pledge was recorded.</p>"
  }

  /** A click on a timeline card: its year, heading and paragraph become the dialog.
      `titleFound` and `found` are what the browser finds focusable in the spliced title
      and paragraph. */
  method OpenTimelineCard(m: ModalManager, year: Option<string>, heading: Option<string>,
                          desc: Option<string>, titleFound: seq<string>, found: seq<string>)
    modifies m
    ensures m.State() == Opened(old(m.State()),
                                Markup(OrEmpty(year) + " \U{2014} " + OrEmpty(heading), titleFound),
                                Markup("<p>" + OrEmpty(desc) + "</p>", found))
  {
    var title := OrEmpty(year) + " \U{2014} " + OrEmpty(heading);
    m.Open(Markup(title, titleFound), Markup("<p>" + OrEmpty(desc) + "</p>", found));
  }

  /** A click on the quiz button. */
  method OpenQuiz(m: ModalManager, form: string)
    modifies m
    ensures m.State() == Opened(old(m.State()), Markup("Mini Quiz", []), Markup(form, QuizControls))
  {
    m.Open(Markup("Mini Quiz", []), Markup(form, QuizControls));
  }

  /** The quiz's Submit button: grade the answers and replace the quiz by its result,
      re-opening the modal while it is still open. */
  method SubmitQuiz(m: ModalManager, q1: string, q2: string) returns (score: nat)
    modifies m
    ensures score == Score(q1, q2) && score <= 2
    ensures m.State() == Opened(old(m.State()), Markup("Quiz Result", []), Markup(ResultHtml(score), []))
    ensures m.lastActiveElement == old(m.activeElement)
  {
    score := 0;
    if Trim(q1) == "1992" {
      score := score + 1;
    }
    if Includes(ToLower(q2), "native") {
      score := score + 1;
    }
    m.Open(Markup("Quiz Result", []), Markup(ResultHtml(score), []));
  }

  /** A click on the research-log button; `table` is the rendering of the stored log and
      `found` the focusable elements the browser finds in its unescaped rows. */
  method OpenResearchLog(m: ModalManager, table: string, found: seq<string>)
    modifies m
    ensures m.State() == Opened(old(m.State()), Markup("Research Log", []), Markup(table, found + ResearchControls))
  {
    m.Open(Markup("Research Log", []), Markup(table, found + ResearchControls));
  }

  /** The Add Entry button, given the answers to its three prompts (`None` for a
      cancelled prompt). With a date and a task, the entry is stored and the dialog is
      closed and opened again on the given table; otherwise nothing happens. */
  method SubmitLogEntry(m: ModalManager, store: RecordStore,
                        date: Option<string>, task: Option<string>, notes: Option<string>,
                        table: string, found: seq<string>) returns (added: bool)
    modifies m, store
    ensures added <==> Truthy(date) && Truthy(task)
    ensures store.researchLog == WithLogEntry(old(store.researchLog), date, task, notes)
    ensures store.pledges == old(store.pledges)
    ensures !added ==> m.State() == old(m.State())
    ensures added ==> m.State() == Opened(Closed(old(m.State())), Markup("Research Log", []),
                                          Markup(table, found + ResearchControls))
    ensures added ==> m.lastActiveElement == if old(m.lastActiveElement).Some?
                                             then old(m.lastActiveElement)
                                             else old(m.activeElement)
  {
    added := false;
    if date.Some? && date.value != "" && task.Some? && task.value != "" {
      store.AppendLog(LogEntry(date.value, task.value, notes));
      m.Close();
      OpenResearchLog(m, table, found);
      added := true;
    }
  }

  /** A click on the pledge button. */
  method OpenPledge(m: ModalManager, form: string)
    modifies m
    ensures m.State() == Opened(old(m.State()), Markup("Pledge", []), Markup(form, PledgeControls))
  {
    m.Open(Markup("Pledge", []), Markup(form, PledgeControls));
  }

  /** The pledge's Sign button: record the pledge under the typed name (or 'Anonymous')
      and the time `now`, then re-open the modal on the confirmation; `found` is what the
      browser finds focusable in the unescaped name. */
  method SubmitPledge(m: ModalManager, store: RecordStore, input: string, now: string,
                      found: seq<string>) returns (name: string)
    modifies m, store
    ensures name == PledgeName(input)
    ensures store.pledges == old(store.pledges) + [Pledge(name, now)]
    ensures store.researchLog == old(store.researchLog)
    ensures m.State() == Opened(old(m.State()), Markup("Pledge Signed", []), Markup(ThanksHtml(name), found))
    ensures m.lastActiveElement == old(m.activeElement)
  {
    name := if input != "" then input else "Anonymous";
    store.AppendPledge(Pledge(name, now));
    m.Open(Markup("Pledge Signed", []), Markup(ThanksHtml(name), found));
  }

  /** The quiz from start to finish: opened from `opener`, submitted from its Submit
      button, then closed. The re-open on the result overwrote the captured element with
      the Submit button, which the result dialog has removed; closing calls `focus()` on
      that button (`refocused`), never on `opener`. */
  method QuizRoundTrip(opener: Element, form: string, q1: string, q2: string)
    returns (refocused: Option<Element>, score: nat)
    ensures refocused == Some(Control("quiz-submit"))
    ensures opener != Control("quiz-submit") ==> refocused != Some(opener)
    ensures score == Score(q1, q2)
  {
    var m := new ModalManager(Some(opener));
    OpenQuiz(m, form);
    m.MoveFocus(Control("quiz-submit"));
    score := SubmitQuiz(m, q1, q2);
    refocused := m.lastActiveElement;
    m.Close();
  }
}
