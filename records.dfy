/**
 * The two lists the page keeps in local storage: the research log under the key
 * `researchLog` (script.js:189-200) and the pledges under `pledges` (script.js:220-225).
 * Both are only ever appended to.
 */
module Records {
  import opened Dom

  /** A research-log row. `notes` is whatever the third prompt returned, `null` included. */
  datatype LogEntry = LogEntry(date: string, task: string, notes: Option<string>)

  /** A signed pledge; `date` is the ISO-8601 time stamp taken when it was signed. */
  datatype Pledge = Pledge(name: string, date: string)

  /** JavaScript truthiness of a `prompt` result: not cancelled and not empty. */
  predicate Truthy(answer: Option<string>) {
    answer.Some? && answer.value != ""
  }

  /** The research log after the Add Entry button: the entry is appended exactly when
      both a date and a task were given, and the earlier entries are kept as they were. */
  function WithLogEntry(log: seq<LogEntry>, date: Option<string>, task: Option<string>, notes: Option<string>): (r: seq<LogEntry>)
    ensures |r| == if Truthy(date) && Truthy(task) then |log| + 1 else |log|
    ensures r[..|log|] == log
    ensures |r| > |log| ==> r[|log|] == LogEntry(date.value, task.value, notes)
  {
    if Truthy(date) && Truthy(task) then log + [LogEntry(date.value, task.value, notes)] else log
  }

  /** The name a pledge is recorded under: the typed name, or 'Anonymous' for an empty field. */
  function PledgeName(input: string): (name: string)
    ensures name != ""
    ensures input != "" ==> name == input
    ensures input == "" ==> name == "Anonymous"
  {
    if input != "" then input else "Anonymous"
  }

  /** Appending never loses or reorders what was stored: the old list is a prefix. */
  lemma {:induction false} LogOnlyGrows(log: seq<LogEntry>, adds: seq<(Option<string>, Option<string>, Option<string>)>)
    ensures var r := LogAfter(log, adds); |log| <= |r| && r[..|log|] == log
    decreases |adds|
  {
    if adds != [] {
      var next := WithLogEntry(log, adds[0].0, adds[0].1, adds[0].2);
      LogOnlyGrows(next, adds[1..]);
      var r := LogAfter(next, adds[1..]);
      assert r[..|log|] == r[..|next|][..|log|];
    }
  }

  /** The research log after a series of Add Entry clicks with the given prompt answers. */
  function LogAfter(log: seq<LogEntry>, adds: seq<(Option<string>, Option<string>, Option<string>)>): seq<LogEntry>
    decreases |adds|
  {
    if adds == [] then log else LogAfter(WithLogEntry(log, adds[0].0, adds[0].1, adds[0].2), adds[1..])
  }

  /** The local store, holding the parsed contents of its two keys (an absent key reads
      as the empty list). */
  class RecordStore {
    var researchLog: seq<LogEntry>
    var pledges: seq<Pledge>

    constructor (log: seq<LogEntry>, signed: seq<Pledge>)
      ensures researchLog == log && pledges == signed
    {
      researchLog := log;
      pledges := signed;
    }

    /** `getItem`, `JSON.parse`, `push` and `setItem` on the `researchLog` key. */
    method AppendLog(entry: LogEntry)
      modifies this
      ensures researchLog == old(researchLog) + [entry]
      ensures pledges == old(pledges)
    {
      var arr := researchLog;
      arr := arr + [entry];
      researchLog := arr;
    }

    /** `getItem`, `JSON.parse`, `push` and `setItem` on the `pledges` key. */
    method AppendPledge(pledge: Pledge)
      modifies this
      ensures pledges == old(pledges) + [pledge]
      ensures researchLog == old(researchLog)
    {
      var list := pledges;
      list := list + [pledge];
      pledges := list;
    }
  }
}
