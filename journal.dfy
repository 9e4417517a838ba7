/**
 The dashboard handlers that change the current user's account: saving a
 daily log, logging a solved question and removing one, as transitions on
 the store. The date of the day is passed in.
 */
module Journal {
  import opened Records
  import opened Text
  import opened Stats

  /** The save-log handler. The text is trimmed; if nothing is left nothing
      is saved. */
  function SaveLog(users: map<string, Account>, user: string, rawText: string, date: string): (r: map<string, Account>)
    requires user in users
    ensures r.Keys == users.Keys
    ensures forall u :: u in users && u != user ==> r[u] == users[u]
    ensures Trim(rawText) == "" ==> r == users
    ensures Trim(rawText) != "" ==>
      && r[user].logs == users[user].logs + [LogEntry(Trim(rawText), date)]
      && r[user].(logs := users[user].logs) == users[user]
  {
    var log := Trim(rawText);
    if log == "" then users
    else users[user := users[user].(logs := users[user].logs + [LogEntry(log, date)])]
  }

  /** What the log-question handler ends in. */
  datatype QuestionOutcome =
    | EmptyNumber     // "Enter question number"
    | QuestionLogged

  /** The log-question handler. The question number is trimmed; if nothing
      is left the user is told so and nothing is saved. */
  function LogQuestion(users: map<string, Account>, user: string,
                       platform: string, topic: string, rawNumber: string, date: string)
    : (r: (QuestionOutcome, map<string, Account>))
    requires user in users
    ensures r.0 == EmptyNumber <==> Trim(rawNumber) == ""
    ensures r.0 == EmptyNumber ==> r.1 == users
    ensures r.1.Keys == users.Keys
    ensures forall u :: u in users && u != user ==> r.1[u] == users[u]
    ensures r.0 == QuestionLogged ==>
      && r.1[user].questions == users[user].questions + [Question(platform, topic, Trim(rawNumber), date)]
      && r.1[user].(questions := users[user].questions) == users[user]
  {
    var number := Trim(rawNumber);
    if number == "" then (EmptyNumber, users)
    else
      var q := Question(platform, topic, number, date);
      (QuestionLogged, users[user := users[user].(questions := users[user].questions + [q])])
  }

  /** `removeQuestion(index)`: `splice(index, 1)` on the current user's
      questions. */
  function RemoveQuestion(users: map<string, Account>, user: string, index: nat): (r: map<string, Account>)
    requires user in users && index < |users[user].questions|
    ensures r.Keys == users.Keys
    ensures forall u :: u in users && u != user ==> r[u] == users[u]
    ensures var qs, qs' := users[user].questions, r[user].questions;
      && |qs'| == |qs| - 1
      && (forall j :: 0 <= j < index ==> qs'[j] == qs[j])
      && (forall j :: index <= j < |qs'| ==> qs'[j] == qs[j + 1])
    ensures r[user].(questions := users[user].questions) == users[user]
  {
    var qs := users[user].questions;
    users[user := users[user].(questions := qs[..index] + qs[index + 1..])]
  }

  /** Removing the question just logged undoes the logging. */
  lemma RemoveUndoesLog(users: map<string, Account>, user: string,
                        platform: string, topic: string, rawNumber: string, date: string)
    requires user in users
    requires Trim(rawNumber) != ""
    ensures var after := LogQuestion(users, user, platform, topic, rawNumber, date).1;
      RemoveQuestion(after, user, |users[user].questions|) == users
  {
    var after := LogQuestion(users, user, platform, topic, rawNumber, date).1;
    var n := |users[user].questions|;
    var qs' := after[user].questions;
    assert qs'[..n] + qs'[n + 1..] == users[user].questions;
    assert RemoveQuestion(after, user, n)[user] == users[user];
  }

  /** After a question is removed the platform list is recounted: its
      platform loses one, every other platform keeps its count, and its
      entry disappears (rather than showing zero) when it was the last
      question on that platform. */
  lemma RemoveQuestionStats(users: map<string, Account>, user: string, index: nat)
    requires user in users && index < |users[user].questions|
    ensures var qs := users[user].questions;
      var qs' := RemoveQuestion(users, user, index)[user].questions;
      && (forall p :: p != qs[index].platform ==> Count(qs', ByPlatform, p) == Count(qs, ByPlatform, p))
      && Count(qs', ByPlatform, qs[index].platform) == Count(qs, ByPlatform, qs[index].platform) - 1
      && (qs[index].platform in Counts(qs', ByPlatform) <==> Count(qs, ByPlatform, qs[index].platform) > 1)
  {
    RemoveCounts(users[user].questions, index, ByPlatform);
  }

  /** After a question is logged the platform list is recounted: its
      platform gains one and nothing else changes. */
  lemma LogQuestionStats(users: map<string, Account>, user: string,
                         platform: string, topic: string, rawNumber: string, date: string)
    requires user in users
    requires Trim(rawNumber) != ""
    ensures var qs := users[user].questions;
      var qs' := LogQuestion(users, user, platform, topic, rawNumber, date).1[user].questions;
      Counts(qs', ByPlatform) == Bump(Counts(qs, ByPlatform), platform)
  {
    CountsSnoc(users[user].questions, Question(platform, topic, Trim(rawNumber), date), ByPlatform);
  }
}
