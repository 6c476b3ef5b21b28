/**
 * The per-user sync log (`backend/logs.js`): `log` appends one line
 * `<ms>;<entry as JSON>` to `users/logs-<user>.log` and hands the entry to the
 * user's stream listeners; `loadLogs` reads the file newest line first and keeps
 * the entries that parse, up to a limit.
 *
 * JSON is a parameter: `stringify` turns an entry into text and `parse` reads one
 * back, `None` where `JSON.parse` throws. A file arrives as its lines in the
 * order the reverse line reader yields them (last line first), `None` when it
 * cannot be read.
 */
module Logs {
  import opened Maybe
  import opened Strings

  /** `{timestamp, execution, type, message, data}` of a log entry. */
  datatype Entry = Entry(timestamp: string, execution: string, logType: string, message: string, data: Option<string>)

  function LogPath(user: string): string {
    "users/logs-" + user + ".log"
  }

  // ---------------------------------------------------------------------------
  // log

  /** The line `log` appends: the clock in ms, `;`, the entry's JSON, a newline. */
  function LogLine(now: nat, json: string): string {
    NatString(now) + ";" + json + "\n"
  }

  /**
   * `log(user, ...)`: the line for the file, and one call per listener registered
   * for this user, in registration order, each with the same entry; none when the
   * user has no listeners.
   */
  method Log<L>(listeners: map<string, seq<L>>, user: string, now: nat, entry: Entry, stringify: Entry -> string)
    returns (path: string, line: string, calls: seq<(L, Entry)>)
    ensures path == LogPath(user) && line == LogLine(now, stringify(entry))
    ensures user !in listeners ==> calls == []
    ensures user in listeners ==>
              |calls| == |listeners[user]|
              && forall k :: 0 <= k < |calls| ==> calls[k] == (listeners[user][k], entry)
  {
    path := LogPath(user);
    line := NatString(now) + ";" + stringify(entry) + "\n";
    var ls := if user in listeners then listeners[user] else [];
    calls := [];
    for i := 0 to |ls|
      invariant |calls| == i
      invariant forall k :: 0 <= k < i ==> calls[k] == (ls[k], entry)
    {
      calls := calls + [(ls[i], entry)];
    }
  }

  // ---------------------------------------------------------------------------
  // loadLogs

  /** `before && timestamp >= before`: a missing or zero `before` keeps everything. */
  predicate TooLate(timestamp: int, before: Option<int>) {
    before.Some? && before.value != 0 && timestamp >= before.value
  }

  /**
   * What the reader callback keeps of one line: nothing for a blank line, a line
   * without `;`, a line whose first field `parseInt` cannot read, a line at or
   * after `before`, or one whose rest (everything after the first `;`) is not JSON.
   */
  function Accept<E>(line: string, before: Option<int>, parse: string -> Option<E>): (r: Option<E>)
    ensures r.Some? ==>
              && !IsBlank(line) && ';' in line
              && var i := IndexOf(line, ';');
                 ParseInt(line[..i]).Some? && !TooLate(ParseInt(line[..i]).value, before)
                 && r == parse(line[i + 1..])
  {
    if IsBlank(line) then None
    else
      var parts := Split(line, ';');
      if |parts| < 2 then None
      else
        var timestamp := ParseInt(parts[0]);
        if timestamp.None? || TooLate(timestamp.value, before) then None
        else
          AfterFirstSeparator(line, ';');
          parse(Join(parts[1..], ';'))
  }

  /**
   * The converse: a non-blank line with a `;` whose prefix parses as an integer
   * not at or after `before` gives the parse of the text after the first `;`,
   * kept exactly when that text is JSON.
   */
  lemma AcceptKeeps<E>(line: string, before: Option<int>, parse: string -> Option<E>)
    requires !IsBlank(line) && ';' in line
    requires ParseInt(line[..IndexOf(line, ';')]).Some?
    requires !TooLate(ParseInt(line[..IndexOf(line, ';')]).value, before)
    ensures Accept(line, before, parse) == parse(line[IndexOf(line, ';') + 1..])
  {
    AfterFirstSeparator(line, ';');
  }

  /** The entries kept from `lines`, in reading order. */
  function Kept<E>(lines: seq<string>, before: Option<int>, parse: string -> Option<E>): seq<E> {
    if lines == [] then []
    else
      var last := Accept(lines[|lines| - 1], before, parse);
      Kept(lines[..|lines| - 1], before, parse) + (if last.Some? then [last.value] else [])
  }

  /** Reading the `j`-th line (counting from 1) ends the scan: it was kept and `limit` is reached. */
  predicate Stops<E>(lines: seq<string>, j: nat, before: Option<int>, limit: int, parse: string -> Option<E>)
    requires 0 < j <= |lines|
  {
    Accept(lines[j - 1], before, parse).Some? && |Kept(lines[..j], before, parse)| >= limit
  }

  /**
   * `loadLogs(user, before, limit)`. The scan reads `read` lines: all of them,
   * unless a kept entry brings the count to `limit` first, in which case it stops
   * right after that line. An unreadable file gives no entries.
   */
  method LoadLogs<E>(file: Option<seq<string>>, before: Option<int>, limit: int, parse: string -> Option<E>)
    returns (logs: seq<E>, read: nat)
    ensures file.None? ==> logs == [] && read == 0
    ensures file.Some? ==> read <= |file.value| && logs == Kept(file.value[..read], before, parse)
    ensures file.Some? ==> forall j :: 0 < j < read ==> !Stops(file.value, j, before, limit, parse)
    ensures file.Some? && read < |file.value| ==> read > 0 && Stops(file.value, read, before, limit, parse)
    ensures |logs| <= if limit < 1 then 1 else limit
  {
    logs, read := [], 0;
    if file.None? {
      return;
    }
    logs, read := Scan(file.value, before, limit, parse);
  }

  /** `ReverseLineReader.eachLine` over the lines of a readable file, with the callback of `loadLogs`. */
  method Scan<E>(lines: seq<string>, before: Option<int>, limit: int, parse: string -> Option<E>)
    returns (logs: seq<E>, read: nat)
    ensures read <= |lines| && logs == Kept(lines[..read], before, parse)
    ensures forall j :: 0 < j < read ==> !Stops(lines, j, before, limit, parse)
    ensures read < |lines| ==> read > 0 && Stops(lines, read, before, limit, parse)
    ensures |logs| <= if limit < 1 then 1 else limit
  {
    logs, read := [], 0;
    while read < |lines|
      invariant read <= |lines| && logs == Kept(lines[..read], before, parse)
      invariant NoStopUpTo(lines, read, before, limit, parse)
      invariant |logs| < limit || logs == []
    {
      var stop;
      logs, stop := ReadLine(lines, read, logs, before, limit, parse);
      read := read + 1;
      if stop {
        return;
      }
    }
    assert lines[..read] == lines;
  }

  /** No line among the first `n` ends the scan. */
  predicate NoStopUpTo<E>(lines: seq<string>, n: nat, before: Option<int>, limit: int, parse: string -> Option<E>)
    requires n <= |lines|
  {
    forall j :: 0 < j <= n ==> !Stops(lines, j, before, limit, parse)
  }

  /** The reader callback on line `n`: keep its entry, if any, and stop once `limit` is reached. */
  method ReadLine<E>(lines: seq<string>, n: nat, logs: seq<E>, before: Option<int>, limit: int,
                     parse: string -> Option<E>)
    returns (logs': seq<E>, stop: bool)
    requires n < |lines| && logs == Kept(lines[..n], before, parse)
    ensures logs' == Kept(lines[..n + 1], before, parse)
    ensures stop <==> Stops(lines, n + 1, before, limit, parse)
    ensures |logs'| <= |logs| + 1
    ensures !stop ==> logs' == logs || |logs'| < limit
    ensures NoStopUpTo(lines, n, before, limit, parse) && !stop ==> NoStopUpTo(lines, n + 1, before, limit, parse)
  {
    var kept := Accept(lines[n], before, parse);
    KeptStep(lines, n, before, parse);
    logs' := if kept.Some? then logs + [kept.value] else logs;
    stop := kept.Some? && |logs'| >= limit;
  }

  /** One more line read adds its entry, if it keeps one. */
  lemma KeptStep<E>(lines: seq<string>, n: nat, before: Option<int>, parse: string -> Option<E>)
    requires n < |lines|
    ensures Kept(lines[..n + 1], before, parse) == Kept(lines[..n], before, parse)
              + (var a := Accept(lines[n], before, parse); if a.Some? then [a.value] else [])
  {
    assert lines[..n + 1][..n] == lines[..n];
  }

  /**
   * Every line `log` writes passes `loadLogs`'s filters once the reader has taken
   * its newline off: its timestamp is read back as the clock, and the rest is the
   * entry's JSON exactly, whatever `;` it contains.
   */
  lemma LoggedLineLoads<E>(now: nat, json: string, before: Option<int>, parse: string -> Option<E>)
    ensures Accept(LogLine(now, json)[..|LogLine(now, json)| - 1], before, parse)
            == if TooLate(now, before) then None else parse(json)
  {
    var digits := NatString(now);
    var line := LogLine(now, json)[..|LogLine(now, json)| - 1];
    assert line == digits + ([';'] + json);
    assert ';' !in digits;
    IndexOfMarker(digits, json, ';');
    assert line[..|digits|] == digits;
    assert line[|digits| + 1..] == json;
    assert !IsSpace(line[0]);
    ParseIntOfDigits(digits);
    NatStringRoundTrip(now);
    AfterFirstSeparator(line, ';');
    var parts := Split(line, ';');
    assert parts[0] == digits && |parts| >= 2;
    assert Join(parts[1..], ';') == json;
    assert !IsBlank(line);
  }
}
