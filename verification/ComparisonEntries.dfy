/** Test entries, and what may become of one from a commit to the next. */
module ComparisonEntries {
  import opened Options

  type Key = seq<string>

  // A test entry. Entries of two commits are the same under one key; loose, scope and moved are what a
  // match under another key may go by, and a monotone entry may gain lines.
  datatype Entry = Entry(
    key: Key, loose: seq<string>, scope: seq<string>, name: string, kind: string,
    content: seq<string>, moved: string, path: string, monotone: bool, conditions: set<set<string>>)

  datatype Action = Relocated | Extended | Modified | Removed | Added

  datatype Change = Change(action: Action, base: Option<Entry>, head: Option<Entry>)
  {
    predicate Flags() {
      action == Modified || action == Removed
    }
  }

  function Lines(entry: Entry): set<string> {
    set line | line in entry.content
  }

  predicate Same(was: Entry, now: Entry) {
    was.content == now.content && was.conditions == now.conditions
  }

  predicate Grew(was: Entry, now: Entry) {
    was.monotone && was.conditions == now.conditions && Lines(was) <= Lines(now)
  }

  // The change of an entry of both commits, if any.
  function Changed(was: Entry, now: Entry): Option<Change> {
    if Same(was, now) then
      if was.path != now.path then Some(Change(Relocated, Some(was), Some(now))) else None
    else Some(Change(if Grew(was, now) then Extended else Modified, Some(was), Some(now)))
  }

  // Python's `del unmatched[match.key]`.
  function Without(entries: seq<Entry>, at: nat): seq<Entry>
    requires at < |entries|
  {
    entries[..at] + entries[at + 1..]
  }

  // Whether an unmatched entry may be one that is gone: it holds its text, or has its kind and name.
  predicate Candidate(now: Entry, was: Entry, byText: bool) {
    if byText then now.moved == was.moved else now.loose == was.loose
  }

  // How unlike a candidate is: first in its conditions, then in its kind and name.
  function Unlike(now: Entry, was: Entry): nat {
    (if now.conditions != was.conditions then 2 else 0) + (if now.loose != was.loose then 1 else 0)
  }

  // Whether a new entry may be one that is gone under another name.
  predicate Renamable(now: Entry, was: Entry, similarity: (Entry, Entry) -> real) {
    && (was.kind == "test" || was.kind == "helper") && now.kind == was.kind && now.scope == was.scope
    && similarity(was, now) >= 0.6
  }
}
