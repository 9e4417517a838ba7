/**
 The records the tracker stores for each user, as plain values. The whole
 store is a `map` from user name to `Account`; it stands for the `users`
 object the handlers load and save back.
 */
module Records {

  datatype Option<T> = None | Some(value: T)

  /** One saved daily log: the trimmed text and the day it was saved on, as
      the browser's locale renders it. */
  datatype LogEntry = LogEntry(text: string, date: string)

  /** One solved question: the platform and topic picked in the form, the
      trimmed question number and the day it was logged, as `YYYY-MM-DD`. */
  datatype Question = Question(platform: string, topic: string, number: string, date: string)

  /** A user's record. `suggestions` is written as an empty list on sign-up
      and never touched again. */
  datatype Account = Account(
    password: string,
    name: string,
    logs: seq<LogEntry>,
    questions: seq<Question>,
    suggestions: seq<string>)

  /** The record sign-up stores for a new user. */
  function NewAccount(password: string, name: string): Account {
    Account(password, name, [], [], [])
  }
}
