/**
 The study suggestion shown on the dashboard. Every log text is
 lower-cased, and the keywords are tried in a fixed order; the first
 keyword that occurs inside some single log text picks the message. A
 keyword is never looked for across two texts. With no match, including
 when there are no logs, the default message is shown.
 */
module Suggest {
  import opened Records
  import opened Text

  datatype Rule = Rule(keyword: string, message: string)

  const DefaultMessage: string := "Focus on consistent problem-solving each day."

  const ArrayMessage: string := "Try exploring String or Sliding Window problems next."
  const LinkedListMessage: string := "How about tackling Stack and Queue based problems now?"
  const GraphMessage: string := "You might want to learn Dynamic Programming or Trees next."
  const DpMessage: string := "Great! Maybe now challenge yourself with advanced Graph problems."

  /** The rules, in the order they are tried. */
  const Rules: seq<Rule> := [
    Rule("array", ArrayMessage),
    Rule("linked list", LinkedListMessage),
    Rule("graph", GraphMessage),
    Rule("dp", DpMessage)
  ]

  /** `logs.map(l => l.text.toLowerCase())`. */
  function Lowered(logs: seq<LogEntry>): (r: seq<string>)
    ensures |r| == |logs| && forall i :: 0 <= i < |logs| ==> r[i] == ToLower(logs[i].text)
  {
    if logs == [] then [] else [ToLower(logs[0].text)] + Lowered(logs[1..])
  }

  /** `texts.some(l => l.includes(k))`. */
  predicate AnyContains(texts: seq<string>, k: string) {
    exists i :: 0 <= i < |texts| && Contains(texts[i], k)
  }

  /** The position of the first rule whose keyword occurs in some text, or
      `|rules|` when none does. */
  function FirstMatch(rules: seq<Rule>, texts: seq<string>): (i: nat)
    ensures i <= |rules|
    ensures i < |rules| ==> AnyContains(texts, rules[i].keyword)
    ensures forall j :: 0 <= j < i ==> !AnyContains(texts, rules[j].keyword)
    decreases |rules|
  {
    if rules == [] then 0
    else if AnyContains(texts, rules[0].keyword) then 0
    else 1 + FirstMatch(rules[1..], texts)
  }

  /** The decision in `updateAISuggestions`. */
  function Suggestion(logs: seq<LogEntry>): (s: string)
    ensures s == DefaultMessage || exists j :: 0 <= j < |Rules| && s == Rules[j].message
  {
    var i := FirstMatch(Rules, Lowered(logs));
    if i < |Rules| then Rules[i].message else DefaultMessage
  }

  /** The rule table decides exactly as the handler's `if / else if` chain. */
  lemma SuggestionChain(logs: seq<LogEntry>)
    ensures var l := Lowered(logs);
      Suggestion(logs) ==
        if AnyContains(l, "array") then ArrayMessage
        else if AnyContains(l, "linked list") then LinkedListMessage
        else if AnyContains(l, "graph") then GraphMessage
        else if AnyContains(l, "dp") then DpMessage
        else DefaultMessage
  {
    var l := Lowered(logs);
    var i := FirstMatch(Rules, l);
    assert Rules[0].keyword == "array" && Rules[1].keyword == "linked list";
    assert Rules[2].keyword == "graph" && Rules[3].keyword == "dp";
    if AnyContains(l, "array") {
      assert i == 0;
    } else if AnyContains(l, "linked list") {
      assert i == 1;
    } else if AnyContains(l, "graph") {
      assert i == 2;
    } else if AnyContains(l, "dp") {
      assert i == 3;
    } else {
      assert i == 4;
    }
  }

  /** First match wins: when the keyword of rule `k` occurs and no earlier
      keyword does, rule `k` decides, whatever later keywords occur too. */
  lemma FirstMatchWins(logs: seq<LogEntry>, k: nat)
    requires k < |Rules|
    requires AnyContains(Lowered(logs), Rules[k].keyword)
    requires forall j :: 0 <= j < k ==> !AnyContains(Lowered(logs), Rules[j].keyword)
    ensures Suggestion(logs) == Rules[k].message
  {
    var i := FirstMatch(Rules, Lowered(logs));
    if i < k {
    } else if i > k {
    }
  }

  /** No rule's message is the default one, so the default is never shown
      by accident of a rule. */
  lemma DefaultNotARule(j: nat)
    requires j < |Rules|
    ensures Rules[j].message != DefaultMessage
  {
    assert |DefaultMessage| == 45;
    assert |ArrayMessage| == 53 && |LinkedListMessage| == 54;
    assert |GraphMessage| == 58 && |DpMessage| == 65;
  }

  /** The default message is shown exactly when no keyword occurs. */
  lemma DefaultIff(logs: seq<LogEntry>)
    ensures Suggestion(logs) == DefaultMessage <==>
      forall j :: 0 <= j < |Rules| ==> !AnyContains(Lowered(logs), Rules[j].keyword)
  {
    var i := FirstMatch(Rules, Lowered(logs));
    if i < |Rules| {
      DefaultNotARule(i);
    }
  }

  /** No logs, no match. */
  lemma NoLogsDefault()
    ensures Suggestion([]) == DefaultMessage
  {
    DefaultIff([]);
  }

  /** Saving one more log can only move the suggestion to the same rule or
      an earlier one. */
  lemma AppendLogPriority(logs: seq<LogEntry>, e: LogEntry)
    ensures FirstMatch(Rules, Lowered(logs + [e])) <= FirstMatch(Rules, Lowered(logs))
  {
    var l, l' := Lowered(logs), Lowered(logs + [e]);
    var i := FirstMatch(Rules, l);
    if i < |Rules| {
      var w :| 0 <= w < |l| && Contains(l[w], Rules[i].keyword);
      assert l'[w] == l[w];
    }
  }

  /** Whether a keyword occurs in some text depends only on which texts
      there are. */
  lemma AnyContainsSameTexts(l: seq<string>, l': seq<string>, k: string)
    requires forall t :: t in l <==> t in l'
    ensures AnyContains(l, k) == AnyContains(l', k)
  {
    if AnyContains(l, k) {
      var w :| 0 <= w < |l| && Contains(l[w], k);
      assert l[w] in l';
    }
    if AnyContains(l', k) {
      var w :| 0 <= w < |l'| && Contains(l'[w], k);
      assert l'[w] in l;
    }
  }

  /** The suggestion depends only on which lower-cased texts occur: not on
      their order, their dates or how often each occurs. */
  lemma SameTextsSameSuggestion(logs: seq<LogEntry>, logs': seq<LogEntry>)
    requires forall t :: t in Lowered(logs) <==> t in Lowered(logs')
    ensures Suggestion(logs) == Suggestion(logs')
  {
    var l, l' := Lowered(logs), Lowered(logs');
    forall k | 0 <= k < |Rules| ensures AnyContains(l, Rules[k].keyword) == AnyContains(l', Rules[k].keyword) {
      AnyContainsSameTexts(l, l', Rules[k].keyword);
    }
    var i, i' := FirstMatch(Rules, l), FirstMatch(Rules, l');
    if i < i' {
    } else if i' < i {
    }
  }

  /** "array" is tried before "graph" and letter case does not matter: a
      graph log saved first does not win over a later log in capitals that
      mentions an array. */
  lemma ExampleArrayBeatsGraph(date: string)
    ensures Suggestion([LogEntry("graph", date), LogEntry("ARRAY", date)]) == ArrayMessage
  {
    var logs := [LogEntry("graph", date), LogEntry("ARRAY", date)];
    assert ToLower("ARRAY") == "array";
    assert OccursAt("array", "array", 0);
    assert Contains(Lowered(logs)[1], "array");
    SuggestionChain(logs);
  }

  /** Keywords are looked for in each log on its own: "d" and "p" saved as
      two logs do not make "dp". */
  lemma ExampleSplitKeyword(date: string)
    ensures Suggestion([LogEntry("d", date), LogEntry("p", date)]) == DefaultMessage
  {
    var logs := [LogEntry("d", date), LogEntry("p", date)];
    var l := Lowered(logs);
    assert |l[0]| == 1 && |l[1]| == 1;
    SuggestionChain(logs);
  }
}
