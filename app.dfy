/**
 The page as a whole: the stored users, the signed-in user and the mode of
 the sign-in form, updated in place by the click handlers. Every handler
 that changes the store loads it, changes it and saves it back in one step,
 so nothing can happen in between and the store here is the field itself.
 */
module App {
  import opened Records
  import opened Text
  import Auth
  import Journal
  import Stats
  import Growth
  import Order
  import Suggest

  class CodeLog {
    var users: map<string, Account>
    var current: Option<string>
    var isLogin: bool

    /** The fields as the value the sign-in transitions work on. */
    function State(): Auth.Session
      reads this
    {
      Auth.Session(users, current, isLogin)
    }

    /** A user is signed in and their account is in the store, as every
        dashboard handler assumes. */
    predicate SignedIn()
      reads this
    {
      current.Some? && current.value in users
    }

    /** The page opens on the stored users, nobody signed in, in log-in mode. */
    constructor (stored: map<string, Account>)
      ensures State() == Auth.Session(stored, None, true)
    {
      users, current, isLogin := stored, None, true;
    }

    /** `toggleLogin`. */
    method ToggleLogin()
      modifies this
      ensures State() == Auth.Toggle(old(State()))
    {
      isLogin := !isLogin;
    }

    /** The click handler of the submit button. */
    method Submit(rawUser: string, password: string, rawName: string) returns (outcome: Auth.Outcome)
      modifies this
      ensures (outcome, State()) == Auth.Submit(old(State()), rawUser, password, rawName)
    {
      var username := Trim(rawUser);
      var name := Trim(rawName);
      if username == "" || password == "" || (!isLogin && name == "") {
        return Auth.MissingFields;
      }
      if isLogin {
        if username in users && users[username].password == password {
          current := Some(username);
          outcome := Auth.LoggedIn;
        } else {
          outcome := Auth.InvalidCredentials;
        }
      } else if username in users {
        outcome := Auth.UserExists;
      } else {
        users := users[username := NewAccount(password, name)];
        outcome := Auth.AccountCreated;
        ToggleLogin();
      }
    }

    /** The save-log handler. */
    method SaveLog(rawText: string, date: string)
      requires SignedIn()
      modifies this
      ensures current == old(current) && isLogin == old(isLogin)
      ensures users == Journal.SaveLog(old(users), old(current).value, rawText, date)
    {
      var log := Trim(rawText);
      if log != "" {
        var user := current.value;
        var account := users[user];
        users := users[user := account.(logs := account.logs + [LogEntry(log, date)])];
      }
    }

    /** The log-question handler. */
    method LogQuestion(platform: string, topic: string, rawNumber: string, date: string)
      returns (outcome: Journal.QuestionOutcome)
      requires SignedIn()
      modifies this
      ensures current == old(current) && isLogin == old(isLogin)
      ensures (outcome, users) == Journal.LogQuestion(old(users), old(current).value, platform, topic, rawNumber, date)
    {
      var number := Trim(rawNumber);
      if number == "" {
        return Journal.EmptyNumber;
      }
      var user := current.value;
      var account := users[user];
      var q := Question(platform, topic, number, date);
      users := users[user := account.(questions := account.questions + [q])];
      outcome := Journal.QuestionLogged;
    }

    /** `removeQuestion(index)`. */
    method RemoveQuestion(index: nat)
      requires SignedIn() && index < |users[current.value].questions|
      modifies this
      ensures current == old(current) && isLogin == old(isLogin)
      ensures users == Journal.RemoveQuestion(old(users), old(current).value, index)
    {
      var user := current.value;
      var account := users[user];
      var qs := account.questions;
      users := users[user := account.(questions := qs[..index] + qs[index + 1..])];
    }

    /** `updatePlatformStats`, without the list it draws. */
    method PlatformStats() returns (stats: map<string, nat>, order: seq<string>)
      requires SignedIn()
      ensures stats == Stats.Counts(users[current.value].questions, Stats.ByPlatform)
      ensures order == Stats.KeyList(users[current.value].questions, Stats.ByPlatform)
      ensures Stats.MapSum(stats) == |users[current.value].questions|
    {
      stats, order := Stats.PlatformStats(users[current.value].questions);
    }

    /** The labels and data a fresh `initChart` draws, without the chart. The
        page draws it only on opening the dashboard, so after a question is
        logged or removed the chart on screen lags behind this series. */
    method GrowthChart() returns (labels: seq<string>, data: seq<nat>)
      requires SignedIn()
      ensures var qs := users[current.value].questions;
        && Order.Ascending(labels)
        && (forall d :: d in labels <==> d in Stats.KeySet(qs, Stats.ByDate))
        && |data| == |labels|
        && (forall i :: 0 <= i < |labels| ==> data[i] == Stats.Count(qs, Stats.ByDate, labels[i]) > 0)
        && Stats.Sum(data) == |qs|
    {
      labels, data := Growth.GrowthSeries(users[current.value].questions);
    }

    /** `updateAISuggestions`, without the box it fills. */
    function Suggestion(): (s: string)
      reads this
      requires SignedIn()
      ensures s == Suggest.Suggestion(users[current.value].logs)
      ensures s == Suggest.DefaultMessage <==>
        forall j :: 0 <= j < |Suggest.Rules| ==> !Suggest.AnyContains(Suggest.Lowered(users[current.value].logs), Suggest.Rules[j].keyword)
    {
      Suggest.DefaultIff(users[current.value].logs);
      Suggest.Suggestion(users[current.value].logs)
    }
  }
}
