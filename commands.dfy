/** The assistant's canned knowledge: the ordered command table, the fallback
    reply and the pool of unsolicited insights, with the first-match-wins,
    case-insensitive substring classifier that picks the reply to a user
    message. */
module Commands {
  import opened Text

  datatype Option<T> = None | Some(value: T)

  /** One entry of the command table: a trigger phrase and its canned reply. */
  datatype Command = Command(trigger: string, response: string)

  /** The command table, in declaration order (the order `Object.keys`
      enumerates it in, since no trigger looks like an array index). */
  const CommandTable: seq<Command> := [
    Command("check instance logs", "Fetching logs for all instances. Everything looks normal with the exception of instance-03 which shows increased error rates."),
    Command("show updates", "Ubuntu 24.04: Security patch (critical). Docker: Version 25.0.3 available."),
    Command("system status", "All systems operational. Load balancer health: 100%, Database response time: 42ms."),
    Command("predict resource needs", "Based on current growth pattern, you'll need 20% more storage and 15% more compute within 30 days."),
    Command("help", "You can ask me to check instance logs, show updates, system status, or predict resource needs.")
  ]

  /** The reply when no trigger matches. */
  const FallbackResponse: string :=
    "I'm not sure how to help with that. Try asking me to check instance logs, show updates, or system status."

  /** The pool the periodic insight is drawn from. */
  const Insights: seq<string> := [
    "Your server load is increasing \U{2014} consider scaling up.",
    "2 updates available for Ubuntu 24.04.",
    "CPU usage on node-01 has exceeded 80% for the last 15 minutes.",
    "Database backup completed successfully.",
    "Memory usage is optimal across all instances.",
    "Security scan complete: No vulnerabilities detected."
  ]

  /** A command fires when its lower-cased trigger occurs in the lower-cased
      text, at some position. */
  predicate Matches(cmd: Command, text: string)
    ensures Matches(cmd, text) <==> exists i: nat :: OccursAt(ToLower(text), ToLower(cmd.trigger), i)
  {
    Includes(ToLower(text), ToLower(cmd.trigger))
  }

  /** The table is an object: its triggers are its keys, so no two are equal. */
  predicate UniqueTriggers(table: seq<Command>) {
    forall i, j :: 0 <= i < j < |table| ==> table[i].trigger != table[j].trigger
  }

  /** Entry `k` is the earliest entry of `table` that matches `text`. */
  predicate FirstMatch(table: seq<Command>, text: string, k: nat) {
    && k < |table|
    && Matches(table[k], text)
    && forall j :: 0 <= j < k ==> !Matches(table[j], text)
  }

  /** No entry of `table` matches `text`. */
  predicate NoMatch(table: seq<Command>, text: string) {
    forall j :: 0 <= j < |table| ==> !Matches(table[j], text)
  }

  /** The index `find` stops at when scanning `table` for a trigger of `text`. */
  function FindCommand(table: seq<Command>, text: string): (k: Option<nat>)
    ensures k.Some? ==> FirstMatch(table, text, k.value)
    ensures k.None? ==> NoMatch(table, text)
  {
    if table == [] then
      None
    else if Matches(table[0], text) then
      Some(0)
    else
      match FindCommand(table[1..], text)
      case None => None
      case Some(i) => Some(i + 1)
  }

  /** The reply to `text`: the response of the earliest matching trigger, or
      `fallback` when none matches. The found trigger is tested for
      truthiness, so an empty trigger, although it matches every text, also
      yields `fallback`. */
  function Resolve(table: seq<Command>, fallback: string, text: string): (r: string)
    requires UniqueTriggers(table)
    ensures forall k: nat :: FirstMatch(table, text, k) && table[k].trigger != "" ==> r == table[k].response
    ensures forall k: nat :: FirstMatch(table, text, k) && table[k].trigger == "" ==> r == fallback
    ensures NoMatch(table, text) ==> r == fallback
    ensures r == fallback || exists k :: 0 <= k < |table| && r == table[k].response
  {
    match FindCommand(table, text)
    case Some(k) =>
      FirstMatchUnique(table, text, k);
      if table[k].trigger == "" then fallback else table[k].response
    case None => fallback
  }

  /** An empty trigger at the head of the table matches every text, yet the
      reply is always `fallback`, since the found key is falsy. */
  lemma EmptyTriggerFallsBack(table: seq<Command>, fallback: string, text: string)
    requires UniqueTriggers(table) && table != [] && table[0].trigger == ""
    ensures Matches(table[0], text)
    ensures Resolve(table, fallback, text) == fallback
  {
    assert OccursAt(ToLower(text), ToLower(table[0].trigger), 0);
    assert FirstMatch(table, text, 0);
  }

  /** The fixed table has distinct, non-empty triggers. */
  lemma CommandTableWellFormed()
    ensures UniqueTriggers(CommandTable)
    ensures forall k :: 0 <= k < |CommandTable| ==> CommandTable[k].trigger != ""
  {
    assert forall k :: 0 <= k < |CommandTable| ==> |CommandTable[k].trigger| == [19, 12, 13, 22, 4][k];
  }

  /** At most one entry is the first match. */
  lemma FirstMatchUnique(table: seq<Command>, text: string, k: nat)
    requires FirstMatch(table, text, k)
    ensures forall m: nat :: FirstMatch(table, text, m) ==> m == k
  {
  }

  /** The assistant's reply to a submitted text under its fixed tables. */
  function Respond(text: string): (r: string)
    ensures r == FallbackResponse || exists k :: 0 <= k < |CommandTable| && r == CommandTable[k].response
  {
    CommandTableWellFormed();
    Resolve(CommandTable, FallbackResponse, text)
  }

  /** Matching ignores case: a text and its lower-case form get the same reply. */
  lemma ResolveIgnoresCase(table: seq<Command>, fallback: string, text: string)
    requires UniqueTriggers(table)
    ensures Resolve(table, fallback, ToLower(text)) == Resolve(table, fallback, text)
  {
    ToLowerIdempotent(text);
    forall c: Command
      ensures Matches(c, ToLower(text)) == Matches(c, text)
    {
    }
    match FindCommand(table, text)
    case Some(k) =>
      assert FirstMatch(table, ToLower(text), k);
    case None =>
      assert NoMatch(table, ToLower(text));
  }

  /** The triggers of the fixed table are already in lower case. */
  lemma TriggersAreLower()
    ensures forall k :: 0 <= k < |CommandTable| ==> ToLower(CommandTable[k].trigger) == CommandTable[k].trigger
  {
    forall k | 0 <= k < |CommandTable|
      ensures ToLower(CommandTable[k].trigger) == CommandTable[k].trigger
    {
      ToLowerOfLower(CommandTable[k].trigger);
    }
  }

  /** A lower-case text in which trigger `k` occurs matches entry `k`. */
  lemma TextMatches(text: string, k: nat, at: nat)
    requires k < |CommandTable|
    requires forall i :: 0 <= i < |text| ==> !IsUpper(text[i])
    requires OccursAt(text, CommandTable[k].trigger, at)
    ensures Matches(CommandTable[k], text)
  {
    ToLowerOfLower(text);
    TriggersAreLower();
  }

  /** A lower-case text lacking character `j` of trigger `k` does not match entry `k`. */
  lemma TextMisses(text: string, k: nat, j: nat)
    requires k < |CommandTable| && j < |CommandTable[k].trigger|
    requires forall i :: 0 <= i < |text| ==> !IsUpper(text[i])
    requires forall i :: 0 <= i < |text| ==> text[i] != CommandTable[k].trigger[j]
    ensures !Matches(CommandTable[k], text)
  {
    ToLowerOfLower(text);
    TriggersAreLower();
    MissingCharExcludes(text, CommandTable[k].trigger, j);
  }

  /** A lower-case text holding "system status" but no 'c' and no 'd' passes
      over the first two entries and stops at the third, whatever later entry
      ("help", say) it also holds. */
  lemma SystemStatusWins(text: string, at: nat)
    requires forall i :: 0 <= i < |text| ==> !IsUpper(text[i])
    requires forall i :: 0 <= i < |text| ==> text[i] != 'c' && text[i] != 'd'
    requires OccursAt(text, "system status", at)
    ensures Respond(text) == CommandTable[2].response
  {
    TextMisses(text, 0, 0);
    TextMisses(text, 1, 7);
    TextMatches(text, 2, at);
    assert FirstMatch(CommandTable, text, 2);
  }

  /** The characters of "help with system status" that the example below
      needs. The concrete texts of these examples are parameters fixed by a
      `requires`, so that the verifier reasons about them through these facts
      rather than by evaluating the whole table on a literal. */
  lemma HelpWithSystemStatusText(text: string)
    requires text == "help with system status"
    ensures forall i :: 0 <= i < |text| ==> !IsUpper(text[i])
    ensures forall i :: 0 <= i < |text| ==> text[i] != 'c' && text[i] != 'd'
    ensures OccursAt(text, "help", 0) && OccursAt(text, "system status", 10)
  {
    assert text == "help" + " with " + "system status";
  }

  /** Table order decides between two matching triggers: a text mentioning both
      "help" and "system status" matches both, and gets the "system status"
      reply because that entry comes first. */
  lemma EarlierTriggerWins(text: string)
    requires text == "help with system status"
    ensures Matches(CommandTable[4], text) && Matches(CommandTable[2], text)
    ensures Respond(text) == CommandTable[2].response
  {
    HelpWithSystemStatusText(text);
    TextMatches(text, 4, 0);
    TextMatches(text, 2, 10);
    SystemStatusWins(text, 10);
  }

  /** The characters of "please give me system status now" that the example
      below needs, stated as for the text above. */
  lemma PleaseGiveMeText(lower: string)
    requires lower == "please give me system status now"
    ensures forall i :: 0 <= i < |lower| ==> !IsUpper(lower[i])
    ensures forall i :: 0 <= i < |lower| ==> lower[i] != 'c' && lower[i] != 'd'
    ensures OccursAt(lower, "system status", 15)
  {
    assert lower == "please give me " + "system status" + " now";
  }

  /** A trigger is found anywhere in the text and regardless of case. */
  lemma TriggerFoundInsideText(text: string, lower: string)
    requires text == "Please give me SYSTEM STATUS now"
    requires lower == "please give me system status now"
    ensures Respond(text) == CommandTable[2].response
  {
    assert ToLower(text) == lower;
    ResolveIgnoresCase(CommandTable, FallbackResponse, text);
    PleaseGiveMeText(lower);
    SystemStatusWins(lower, 15);
  }

  /** A lower-case text in which 'c', 'u', 'y' and 'p' do not occur matches no
      trigger of the table, since each trigger holds one of them. */
  lemma FallbackWithoutTriggerLetters(text: string)
    requires forall i :: 0 <= i < |text| ==> !IsUpper(text[i])
    requires forall i :: 0 <= i < |text| ==> text[i] !in {'c', 'u', 'y', 'p'}
    ensures Respond(text) == FallbackResponse
  {
    TextMisses(text, 0, 0);
    TextMisses(text, 1, 5);
    TextMisses(text, 2, 1);
    TextMisses(text, 3, 0);
    TextMisses(text, 4, 3);
    assert NoMatch(CommandTable, text);
  }

  /** Texts that mention no trigger get the fallback reply. */
  lemma WeatherFallsBack(text: string)
    requires text == "what is the weather"
    ensures Respond(text) == FallbackResponse
  {
    FallbackWithoutTriggerLetters(text);
  }

  lemma RebootFallsBack(text: string)
    requires text == "reboot the database"
    ensures Respond(text) == FallbackResponse
  {
    FallbackWithoutTriggerLetters(text);
  }

  lemma GreetingFallsBack(text: string)
    requires text == "hello there"
    ensures Respond(text) == FallbackResponse
  {
    FallbackWithoutTriggerLetters(text);
  }
}
