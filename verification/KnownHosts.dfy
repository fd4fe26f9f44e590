/** src/known_hosts/known_hosts.cpp: the text file of trusted host keys, against a first-wins map. */
module KnownHosts {
  import opened Prelude
  import opened Text
  import Base64

  const NEWLINE: byte := 10
  const SPACE: byte := 32

  datatype Status = Unknown | Match | Changed

  datatype Entry = Entry(host: bytes, algorithm: bytes, key: bytes)

  // ---- Fields of a line, as operator>> reads them ----

  predicate IsSpace(c: byte) {
    c == SPACE || 9 <= c <= 13
  }

  predicate IsToken(s: bytes) {
    s != [] && forall i :: 0 <= i < |s| ==> !IsSpace(s[i])
  }

  function SkipSpaces(s: bytes): bytes {
    if s != [] && IsSpace(s[0]) then SkipSpaces(s[1..]) else s
  }

  function WordLength(s: bytes): (n: nat)
    ensures n <= |s|
  {
    if s == [] || IsSpace(s[0]) then 0 else 1 + WordLength(s[1..])
  }

  /** One extraction: the next field and what is left of the line. */
  function NextField(s: bytes): Result<(bytes, bytes)> {
    var t := SkipSpaces(s);
    if t == [] then Failure else Success((t[..WordLength(t)], t[WordLength(t)..]))
  }

  function ThreeFields(line: bytes): Result<Entry> {
    var (host, rest) :- NextField(line);
    var (algorithm, rest') :- NextField(rest);
    var (key, _) :- NextField(rest');
    Success(Entry(host, algorithm, key))
  }

  lemma {:induction false} WordLengthSpec(s: bytes)
    ensures forall i :: 0 <= i < WordLength(s) ==> !IsSpace(s[i])
    ensures WordLength(s) < |s| ==> IsSpace(s[WordLength(s)])
    ensures s != [] && !IsSpace(s[0]) ==> WordLength(s) > 0
  {
    if s != [] && !IsSpace(s[0]) {
      WordLengthSpec(s[1..]);
    }
  }

  lemma {:induction false} WordLengthIs(s: bytes, n: nat)
    requires n <= |s| && (forall i :: 0 <= i < n ==> !IsSpace(s[i])) && (n < |s| ==> IsSpace(s[n]))
    ensures WordLength(s) == n
  {
    if n > 0 {
      WordLengthIs(s[1..], n - 1);
    }
  }

  lemma {:induction false} SkipSpacesSpec(s: bytes)
    ensures SkipSpaces(s) != [] ==> !IsSpace(SkipSpaces(s)[0])
  {
    if s != [] && IsSpace(s[0]) {
      SkipSpacesSpec(s[1..]);
    }
  }

  /** A field that is read is a token. */
  lemma FieldIsToken(s: bytes)
    requires NextField(s).Success?
    ensures IsToken(NextField(s).value.0)
  {
    SkipSpacesSpec(s);
    WordLengthSpec(SkipSpaces(s));
  }

  lemma TokenRead(token: bytes, rest: bytes)
    requires IsToken(token) && (rest != [] ==> IsSpace(rest[0]))
    ensures NextField(token + rest) == Success((token, rest))
  {
    var s := token + rest;
    assert s[0] == token[0];
    WordLengthIs(s, |token|);
    assert s[..|token|] == token && s[|token|..] == rest;
  }

  lemma BlankTokenRead(blank: byte, token: bytes, rest: bytes)
    requires IsSpace(blank) && IsToken(token) && (rest != [] ==> IsSpace(rest[0]))
    ensures NextField([blank] + (token + rest)) == Success((token, rest))
  {
    TokenRead(token, rest);
    var s := [blank] + (token + rest);
    assert s[1..] == token + rest;
    assert SkipSpaces(s) == SkipSpaces(token + rest);
  }

  // ---- check and add over the content of the file ----

  function CheckLines(lines: seq<bytes>, host: bytes, algorithm: bytes, key: bytes): Result<Status> {
    if lines == [] then Success(Unknown)
    else if lines[0] == [] then CheckLines(lines[1..], host, algorithm, key)
    else
      var e :- ThreeFields(lines[0]);
      if e.host != host then CheckLines(lines[1..], host, algorithm, key)
      else if e.algorithm == algorithm && e.key == key then Success(Match)
      else Success(Changed)
  }

  /** None is a file that does not exist. */
  function Check(file: Option<bytes>, host: bytes, algorithm: bytes, key: bytes): Result<Status> {
    if key == [] then Failure
    else if file.None? then Success(Unknown)
    else CheckLines(Split(file.value, NEWLINE), host, algorithm, Base64.Encode(key))
  }

  function Line(host: bytes, algorithm: bytes, key: bytes): bytes {
    host + ([SPACE] + (algorithm + ([SPACE] + Base64.Encode(key))))
  }

  function Content(file: Option<bytes>): bytes {
    if file.None? then [] else file.value
  }

  /** The file after add, or Failure where add throws. */
  function Add(file: Option<bytes>, host: bytes, algorithm: bytes, key: bytes): Result<Option<bytes>> {
    var status :- Check(file, host, algorithm, key);
    match status
    case Match => Success(file)
    case Changed => Failure
    case Unknown => Success(Some(Content(file) + (Line(host, algorithm, key) + [NEWLINE])))
  }

  lemma LineWritten(text: bytes, host: bytes, algorithm: bytes, key: bytes)
    ensures text + (Line(host, algorithm, key) + [NEWLINE])
         == text + host + [' ' as int] + algorithm + [' ' as int] + Base64.Encode(key) + ['\n' as int]
  {
  }

  class KnownHosts {
    var file: Option<bytes>

    constructor (file: Option<bytes>)
      ensures this.file == file
    {
      this.file := file;
    }

    method CheckHost(hostname: bytes, algorithm: bytes, hostKey: bytes) returns (r: Result<Status>)
      ensures r == Check(file, hostname, algorithm, hostKey)
    {
      if hostKey == [] {
        return Failure;
      }
      var encodedKey := Base64.Encode(hostKey);
      if file.None? {
        return Success(Unknown);
      }
      var stream := file.value;
      var line := GetLine(stream, NEWLINE);
      while line.Some?
        invariant line == GetLine(stream, NEWLINE)
        invariant CheckLines(Split(stream, NEWLINE), hostname, algorithm, encodedKey)
               == CheckLines(Split(file.value, NEWLINE), hostname, algorithm, encodedKey)
        decreases |stream|
      {
        assert Split(stream, NEWLINE)[1..] == Split(line.value.1, NEWLINE);
        if line.value.0 != [] {
          var saved :- ThreeFields(line.value.0);
          if saved.host == hostname {
            if saved.algorithm == algorithm && saved.key == encodedKey {
              return Success(Match);
            }
            return Success(Changed);
          }
        }
        stream := line.value.1;
        line := GetLine(stream, NEWLINE);
      }
      return Success(Unknown);
    }

    /** A refused or unnecessary add leaves the file alone. */
    method AddHost(hostname: bytes, algorithm: bytes, hostKey: bytes) returns (r: Result<()>)
      modifies this
      ensures r.Success? <==> Add(old(file), hostname, algorithm, hostKey).Success?
      ensures file == if r.Success? then Add(old(file), hostname, algorithm, hostKey).value else old(file)
      ensures file == old(file)
        || file == Some((if old(file).None? then [] else old(file).value)
                        + hostname + [' ' as int] + algorithm + [' ' as int] + Base64.Encode(hostKey) + ['\n' as int])
    {
      var status :- CheckHost(hostname, algorithm, hostKey);
      if status == Match {
        return Success(());
      }
      if status == Changed {
        return Failure;
      }
      var appended := Line(hostname, algorithm, hostKey) + [NEWLINE];
      file := Some((if file.None? then [] else file.value) + appended);
      LineWritten(if old(file).None? then [] else old(file).value, hostname, algorithm, hostKey);
      return Success(());
    }
  }

  // ---- The file as a map in which the first entry for a host wins ----

  predicate LinesOk(lines: seq<bytes>) {
    forall i :: 0 <= i < |lines| ==> lines[i] == [] || ThreeFields(lines[i]).Success?
  }

  predicate WellFormed(file: Option<bytes>) {
    LinesOk(Split(Content(file), NEWLINE)) && Terminated(Content(file), NEWLINE)
  }

  type HostMap = map<bytes, (bytes, bytes)>

  function Entries(lines: seq<bytes>): HostMap {
    if lines == [] then map[] else
    var rest := Entries(lines[1..]);
    var e := ThreeFields(lines[0]);
    if e.Failure? then rest else rest[e.value.host := (e.value.algorithm, e.value.key)]
  }

  function MapOf(file: Option<bytes>): HostMap {
    Entries(Split(Content(file), NEWLINE))
  }

  function Lookup(m: HostMap, host: bytes, algorithm: bytes, key: bytes): Status {
    if host !in m then Unknown else if m[host] == (algorithm, key) then Match else Changed
  }

  lemma {:induction false} CheckLinesIsLookup(lines: seq<bytes>, host: bytes, algorithm: bytes, key: bytes)
    requires LinesOk(lines)
    ensures CheckLines(lines, host, algorithm, key) == Success(Lookup(Entries(lines), host, algorithm, key))
  {
    if lines != [] {
      assert LinesOk(lines[1..]);
      CheckLinesIsLookup(lines[1..], host, algorithm, key);
    }
  }

  /** On a well-formed file, check answers exactly as the map does. */
  lemma CheckIsLookup(file: Option<bytes>, host: bytes, algorithm: bytes, key: bytes)
    requires LinesOk(Split(Content(file), NEWLINE)) && key != []
    ensures Check(file, host, algorithm, key) == Success(Lookup(MapOf(file), host, algorithm, Base64.Encode(key)))
  {
    CheckLinesIsLookup(Split(Content(file), NEWLINE), host, algorithm, Base64.Encode(key));
  }

  /** A line at the end counts only if its host has no entry yet. */
  lemma {:induction false} EntriesSnoc(lines: seq<bytes>, line: bytes)
    ensures var m, e := Entries(lines), ThreeFields(line);
            Entries(lines + [line])
            == if e.Failure? || e.value.host in m then m else m[e.value.host := (e.value.algorithm, e.value.key)]
  {
    if lines == [] {
      assert [line][1..] == [] && lines + [line] == [line];
    } else {
      EntriesSnoc(lines[1..], line);
      assert (lines + [line])[1..] == lines[1..] + [line];
    }
  }

  lemma InsertIntoSum(m: HostMap, n: HostMap, host: bytes, entry: (bytes, bytes))
    ensures (m + n)[host := entry] == m + n[host := entry]
  {
  }

  /** Of two lists of lines the entries of the first win. */
  lemma {:induction false} EntriesConcat(a: seq<bytes>, b: seq<bytes>)
    ensures Entries(a + b) == Entries(b) + Entries(a)
  {
    if a == [] {
      assert a + b == b;
    } else {
      EntriesConcat(a[1..], b);
      assert (a + b)[0] == a[0] && (a + b)[1..] == a[1..] + b;
      var e := ThreeFields(a[0]);
      if e.Success? {
        InsertIntoSum(Entries(b), Entries(a[1..]), e.value.host, (e.value.algorithm, e.value.key));
      }
    }
  }

  lemma LineFields(host: bytes, algorithm: bytes, key: bytes)
    requires IsToken(host) && IsToken(algorithm) && key != []
    ensures ThreeFields(Line(host, algorithm, key)) == Success(Entry(host, algorithm, Base64.Encode(key)))
    ensures NEWLINE !in Line(host, algorithm, key)
  {
    var text := Base64.Encode(key);
    Base64.EncodePrintable(key);
    var rest' := [SPACE] + text;
    var rest := [SPACE] + (algorithm + rest');
    TokenRead(host, rest);
    BlankTokenRead(SPACE, algorithm, rest');
    assert text + [] == text;
    BlankTokenRead(SPACE, text, []);
    assert NEWLINE !in rest' && NEWLINE !in rest;
  }

  /**
    * In a file that ends in a newline a successful add of a new host is an insertion; every other add changes
    * nothing.
    */
  lemma TerminatedAdd(file: Option<bytes>, host: bytes, algorithm: bytes, key: bytes)
    requires WellFormed(file) && IsToken(host) && IsToken(algorithm) && key != []
    ensures var m, e := MapOf(file), (algorithm, Base64.Encode(key));
            var r := Add(file, host, algorithm, key);
            && (r.Failure? <==> host in m && m[host] != e)
            && (r.Success? ==> WellFormed(r.value) && MapOf(r.value) == m[host := e])
            && (r.Success? && host in m ==> r.value == file)
            && (r.Success? && host !in m ==>
              Split(r.value.value, NEWLINE) == Split(Content(file), NEWLINE) + [Line(host, algorithm, key)])
  {
    CheckIsLookup(file, host, algorithm, key);
    if host in MapOf(file) {
      assert MapOf(file)[host := MapOf(file)[host]] == MapOf(file);
    } else {
      LineAdded(Content(file), host, algorithm, key);
    }
  }

  lemma LineAdded(text: bytes, host: bytes, algorithm: bytes, key: bytes)
    requires LinesOk(Split(text, NEWLINE)) && Terminated(text, NEWLINE)
    requires IsToken(host) && IsToken(algorithm) && key != []
    ensures var lines, line := Split(text, NEWLINE), Line(host, algorithm, key);
            var after := text + (line + [NEWLINE]);
            && Split(after, NEWLINE) == lines + [line] && LinesOk(lines + [line]) && Terminated(after, NEWLINE)
            && (host !in Entries(lines) ==>
                  Entries(lines + [line]) == Entries(lines)[host := (algorithm, Base64.Encode(key))])
  {
    var line := Line(host, algorithm, key);
    LineFields(host, algorithm, key);
    SplitAppend(text, line + [NEWLINE], NEWLINE);
    SplitLine(line, NEWLINE);
    EntriesSnoc(Split(text, NEWLINE), line);
  }

  // ---- A file as it is written ----

  predicate Plain(s: bytes) {
    s != [] && forall i :: 0 <= i < |s| ==> s[i] > 32
  }

  /** Three fields parted by a space or a tab each, and what is behind them. */
  lemma FieldsRead(a: bytes, x: byte, b: bytes, y: byte, c: bytes)
    requires Plain(a) && Plain(b) && Plain(c) && (x == ' ' as int || x == '\t' as int)
      && (y == ' ' as int || y == '\t' as int)
    ensures ThreeFields(a + ([x] + (b + ([y] + c)))) == Success(Entry(a, b, c))
  {
    var rest' := [y] + c;
    var rest := [x] + (b + rest');
    TokenRead(a, rest);
    BlankTokenRead(x, b, rest');
    assert c + [] == c;
    BlankTokenRead(y, c, []);
  }

  function Written(entries: seq<Entry>): bytes {
    if entries == [] then [] else
    var e := entries[0];
    (e.host + ([' ' as int] + (e.algorithm + ([' ' as int] + e.key)))) + ['\n' as int] + Written(entries[1..])
  }

  /** A line that was written is the first of the lines. */
  lemma WrittenLine(entries: seq<Entry>)
    requires entries != [] && Plain(entries[0].host) && Plain(entries[0].algorithm) && Plain(entries[0].key)
    ensures var e, lines := entries[0], Split(Written(entries), NEWLINE);
            && |lines| > 0 && lines[0] != [] && ThreeFields(lines[0]) == Success(e)
            && lines[1..] == Split(Written(entries[1..]), NEWLINE)
  {
    var e := entries[0];
    var line := e.host + ([' ' as int] + (e.algorithm + ([' ' as int] + e.key)));
    FieldsRead(e.host, ' ' as int, e.algorithm, ' ' as int, e.key);
    assert line[0] == e.host[0];
    SplitFirst(line, Written(entries[1..]), NEWLINE);
  }

  /** The first line decides if it is the host's, and is passed over otherwise. */
  lemma CheckOfFirst(entries: seq<Entry>, host: bytes, algorithm: bytes, key: bytes)
    requires entries != [] && key != []
    requires Plain(entries[0].host) && Plain(entries[0].algorithm) && Plain(entries[0].key)
    ensures Check(Some(Written(entries)), host, algorithm, key)
      == if entries[0].host != host then Check(Some(Written(entries[1..])), host, algorithm, key)
         else Success(if entries[0].algorithm == algorithm
           && entries[0].key == Base64.Encode(key) then Match else Changed)
  {
    WrittenLine(entries);
  }

  /**
    * On any file of entries written one a line: the first entry of the host decides, and a host without one is
    * unknown.
    */
  lemma {:induction false} CheckOfWritten(entries: seq<Entry>, host: bytes, algorithm: bytes, key: bytes, i: nat)
    requires key != [] && forall k :: 0 <= k < |entries| ==>
      Plain(entries[k].host) && Plain(entries[k].algorithm) && Plain(entries[k].key)
    requires i <= |entries| && forall k :: 0 <= k < i ==> entries[k].host != host
    ensures i == |entries| ==> Check(Some(Written(entries)), host, algorithm, key) == Success(Unknown)
    ensures i < |entries| && entries[i].host == host ==>
      Check(Some(Written(entries)), host, algorithm, key)
      == Success(if entries[i].algorithm == algorithm && entries[i].key == Base64.Encode(key) then Match else Changed)
  {
    if entries == [] {
      assert Written(entries) == [];
    } else if i == 0 {
      CheckOfFirst(entries, host, algorithm, key);
    } else {
      var rest := entries[1..];
      assert forall k :: 0 <= k < |rest| ==> rest[k] == entries[k + 1];
      CheckOfWritten(rest, host, algorithm, key, i - 1);
      CheckOfFirst(entries, host, algorithm, key);
    }
  }

  // ---- Any history of adds ----

  datatype Addition = Addition(host: bytes, algorithm: bytes, key: bytes)

  predicate Proper(a: Addition) {
    IsToken(a.host) && IsToken(a.algorithm) && a.key != []
  }

  /** Refused adds leave the file as it was. */
  function FileAfter(start: Option<bytes>, history: seq<Addition>): Option<bytes> {
    if history == [] then start else
    var file, a := FileAfter(start, history[..|history| - 1]), history[|history| - 1];
    var r := Add(file, a.host, a.algorithm, a.key);
    if r.Success? then r.value else file
  }

  /** What the history means from nothing: the first algorithm and key given for each host. */
  function MapAfter(history: seq<Addition>): HostMap {
    if history == [] then map[] else
    var m, a := MapAfter(history[..|history| - 1]), history[|history| - 1];
    if a.host in m then m else m[a.host := (a.algorithm, a.key)]
  }

  /** What it adds to the entries of a file. */
  function Stored(m: HostMap, history: seq<Addition>): HostMap {
    if history == [] then m else
    var before, a := Stored(m, history[..|history| - 1]), history[|history| - 1];
    if a.host in before then before else before[a.host := (a.algorithm, Base64.Encode(a.key))]
  }

  function Encoded(m: HostMap): HostMap {
    map h | h in m :: (m[h].0, Base64.Encode(m[h].1))
  }

  lemma EncodedInsert(m: HostMap, host: bytes, algorithm: bytes, key: bytes)
    ensures Encoded(m[host := (algorithm, key)]) == Encoded(m)[host := (algorithm, Base64.Encode(key))]
  {
  }

  lemma {:induction false} StoredIsEncoded(history: seq<Addition>)
    ensures Stored(map[], history) == Encoded(MapAfter(history))
  {
    if history != [] {
      var before, a := history[..|history| - 1], history[|history| - 1];
      StoredIsEncoded(before);
      EncodedInsert(MapAfter(before), a.host, a.algorithm, a.key);
    }
  }

  function CountHost(lines: seq<bytes>, host: bytes): nat {
    if lines == [] then 0 else
    var e := ThreeFields(lines[|lines| - 1]);
    CountHost(lines[..|lines| - 1], host) + if e.Success? && e.value.host == host then 1 else 0
  }

  function Count(file: Option<bytes>, host: bytes): nat {
    CountHost(Split(Content(file), NEWLINE), host)
  }

  lemma CountSnoc(lines: seq<bytes>, line: bytes, host: bytes)
    ensures CountHost(lines + [line], host)
         == CountHost(lines, host) + if ThreeFields(line).Success? && ThreeFields(line).value.host == host then 1 else 0
  {
    assert (lines + [line])[..|lines|] == lines;
  }

  /** One add, accepted or refused, as a change of the map and of the number of lines for a host. */
  lemma AddStored(file: Option<bytes>, a: Addition, host: bytes)
    requires WellFormed(file) && Proper(a)
    ensures var m, r := MapOf(file), Add(file, a.host, a.algorithm, a.key);
            var after := if r.Success? then r.value else file;
            && WellFormed(after)
            && MapOf(after) == (if a.host in m then m else m[a.host := (a.algorithm, Base64.Encode(a.key))])
            && Count(after, host) == Count(file, host) + if a.host == host && host !in m then 1 else 0
  {
    TerminatedAdd(file, a.host, a.algorithm, a.key);
    if a.host !in MapOf(file) {
      LineFields(a.host, a.algorithm, a.key);
      CountSnoc(Split(Content(file), NEWLINE), Line(a.host, a.algorithm, a.key), host);
    }
  }

  lemma {:induction false} HistoryStored(start: Option<bytes>, history: seq<Addition>, host: bytes)
    requires WellFormed(start) && forall i :: 0 <= i < |history| ==> Proper(history[i])
    ensures WellFormed(FileAfter(start, history)) && MapOf(FileAfter(start, history)) == Stored(MapOf(start), history)
    ensures host in MapOf(start) ==> host in Stored(MapOf(start), history)
    ensures Count(FileAfter(start, history), host)
         == Count(start, host) + if host in Stored(MapOf(start), history) && host !in MapOf(start) then 1 else 0
  {
    if history != [] {
      var before, a := history[..|history| - 1], history[|history| - 1];
      HistoryStored(start, before, host);
      assert Proper(a);
      AddStored(FileAfter(start, before), a, host);
    }
  }

  /** Adds for hosts that have an entry never change the file. */
  lemma {:induction false} KnownHistory(start: Option<bytes>, history: seq<Addition>)
    requires LinesOk(Split(Content(start), NEWLINE))
    requires forall i :: 0 <= i < |history| ==> Proper(history[i]) && history[i].host in MapOf(start)
    ensures FileAfter(start, history) == start && Stored(MapOf(start), history) == MapOf(start)
  {
    if history != [] {
      var before, a := history[..|history| - 1], history[|history| - 1];
      KnownHistory(start, before);
      assert Proper(a) && a.host in MapOf(start);
      CheckIsLookup(start, a.host, a.algorithm, a.key);
    }
  }

  /**
    * After any history of adds, accepted and refused, check answers as the entries of the file extended by the first
    * addition for each new host, and only a new host has got a line, and one: for a file that parses and ends in a
    * newline, and for any file that parses if no host is new.
    */
  lemma HistoryExtendsMap(start: Option<bytes>, history: seq<Addition>, host: bytes, algorithm: bytes, key: bytes)
    requires LinesOk(Split(Content(start), NEWLINE)) && key != []
    requires forall i :: 0 <= i < |history| ==> Proper(history[i])
    requires Terminated(Content(start), NEWLINE) || forall i :: 0 <= i < |history| ==> history[i].host in MapOf(start)
    ensures Check(FileAfter(start, history), host, algorithm, key)
         == Success(Lookup(Stored(MapOf(start), history), host, algorithm, Base64.Encode(key)))
    ensures Count(FileAfter(start, history), host)
         == Count(start, host) + if host in Stored(MapOf(start), history) && host !in MapOf(start) then 1 else 0
  {
    if Terminated(Content(start), NEWLINE) {
      HistoryStored(start, history, host);
    } else {
      KnownHistory(start, history);
    }
    CheckIsLookup(FileAfter(start, history), host, algorithm, key);
  }

  /**
    * From no file, check answers as the map from hosts to keys does, and each host of the map has exactly one
    * line in the file.
    */
  lemma HistoryRefinesMap(history: seq<Addition>, host: bytes, algorithm: bytes, key: bytes)
    requires (forall i :: 0 <= i < |history| ==> Proper(history[i])) && key != []
    ensures Check(FileAfter(None, history), host, algorithm, key)
      == Success(Lookup(MapAfter(history), host, algorithm, key))
    ensures Count(FileAfter(None, history), host) == if host in MapAfter(history) then 1 else 0
  {
    HistoryExtendsMap(None, history, host, algorithm, key);
    StoredIsEncoded(history);
    var m := MapAfter(history);
    if host in m && Base64.Encode(m[host].1) == Base64.Encode(key) {
      Base64.EncodeInjective(m[host].1, key);
    }
  }

  // ---- When a key that was just saved is found again ----

  lemma {:induction false} MatchNeedsTokens(lines: seq<bytes>, host: bytes, algorithm: bytes, key: bytes)
    requires CheckLines(lines, host, algorithm, key) == Success(Match)
    ensures IsToken(host) && IsToken(algorithm)
  {
    if lines[0] != [] {
      FieldIsToken(lines[0]);
      FieldIsToken(NextField(lines[0]).value.1);
    }
    if !(lines[0] != [] && ThreeFields(lines[0]).Success? && ThreeFields(lines[0]).value.host == host) {
      MatchNeedsTokens(lines[1..], host, algorithm, key);
    }
  }

  // ---- An add to a file that does not end in a newline ----

  /** A field with something behind it stays when the line grows; the last one grows with it. */
  lemma {:induction false} FieldStays(s: bytes, more: bytes)
    requires NextField(s).Success? && NextField(s).value.1 != []
    ensures NextField(s + more) == Success((NextField(s).value.0, NextField(s).value.1 + more))
  {
    if IsSpace(s[0]) {
      FieldStays(s[1..], more);
      assert (s + more)[1..] == s[1..] + more;
    } else {
      var n := WordLength(s);
      WordLengthSpec(s);
      WordLengthIs(s + more, n);
      assert (s + more)[..n] == s[..n] && (s + more)[n..] == s[n..] + more;
    }
  }

  lemma {:induction false} FieldGrows(s: bytes, more: bytes)
    requires NextField(s).Success? && NextField(s).value.1 == [] && more != [] && !IsSpace(more[0])
    ensures NextField(s + more).Success? && |NextField(s + more).value.0| > |NextField(s).value.0|
  {
    if IsSpace(s[0]) {
      FieldGrows(s[1..], more);
      assert (s + more)[1..] == s[1..] + more;
    } else {
      WordLengthSpec(s);
      WordLengthSpec(s + more);
      assert WordLength(s) == |s| && (s + more)[|s|] == more[0];
      WordIsLonger(s, more);
    }
  }

  lemma {:induction false} WordIsLonger(s: bytes, more: bytes)
    requires WordLength(s) == |s| && more != [] && !IsSpace(more[0])
    ensures WordLength(s + more) > |s|
  {
    if s == [] {
      assert s + more == more;
    } else {
      assert (s + more)[1..] == s[1..] + more;
      WordIsLonger(s[1..], more);
    }
  }

  /** What is behind the third field of a line. */
  function Behind(line: bytes): bytes
    requires ThreeFields(line).Success?
  {
    NextField(NextField(NextField(line).value.1).value.1).value.1
  }

  /** Something that begins with a blank leaves the last field as it was. */
  lemma {:induction false} FieldEnds(s: bytes, more: bytes)
    requires NextField(s).Success? && NextField(s).value.1 == [] && (more != [] ==> IsSpace(more[0]))
    ensures NextField(s + more) == Success((NextField(s).value.0, more))
  {
    if IsSpace(s[0]) {
      FieldEnds(s[1..], more);
      assert (s + more)[1..] == s[1..] + more;
    } else {
      WordLengthSpec(s);
      assert WordLength(s) == |s|;
      assert forall i :: 0 <= i < |s| ==> (s + more)[i] == s[i];
      WordLengthIs(s + more, |s|);
      assert (s + more)[..|s|] == s == s[..|s|] && (s + more)[|s|..] == more && (s + more)[0] == s[0];
    }
  }

  /** Whether the third field of a line ends before what is put behind it. */
  predicate KeyStays(line: bytes, more: bytes)
    requires ThreeFields(line).Success?
  {
    more == [] || IsSpace(more[0]) || Behind(line) != []
  }

  /** A longer line has the same host and algorithm, and the same key exactly if that had ended. */
  lemma ExtendedFields(line: bytes, more: bytes)
    requires ThreeFields(line).Success?
    ensures var e, f := ThreeFields(line).value, ThreeFields(line + more);
            f.Success? && f.value.host == e.host && f.value.algorithm == e.algorithm
            && (f.value.key == e.key <==> KeyStays(line, more))
  {
    FieldStays(line, more);
    var rest := NextField(line).value.1;
    FieldStays(rest, more);
    var rest' := NextField(rest).value.1;
    if Behind(line) != [] {
      FieldStays(rest', more);
    } else if more == [] || IsSpace(more[0]) {
      FieldEnds(rest', more);
    } else {
      FieldGrows(rest', more);
    }
  }

  /** An answer of Unknown means that every line parses and none is the host's. */
  lemma {:induction false} UnknownParses(lines: seq<bytes>, host: bytes, algorithm: bytes, key: bytes)
    requires CheckLines(lines, host, algorithm, key) == Success(Unknown)
    ensures LinesOk(lines) && host !in Entries(lines)
  {
    if lines != [] {
      UnknownParses(lines[1..], host, algorithm, key);
      assert forall i :: 1 <= i < |lines| ==> lines[i] == lines[1..][i - 1];
    }
  }

  /**
    * The last line withstands an add: a newline ends it, or its key is already ended by a blank, or an earlier
    * line has its host.
    */
  predicate Withstands(file: Option<bytes>)
    requires LinesOk(Split(Content(file), NEWLINE))
  {
    Terminated(Content(file), NEWLINE) ||
    (var lines := Split(Content(file), NEWLINE);
     lines != [] && var last := lines[|lines| - 1];
     ThreeFields(last).Success?
       && (Behind(last) != [] || ThreeFields(last).value.host in Entries(lines[..|lines| - 1])))
  }

  /** The lines of an unterminated text before and after a line is appended. */
  lemma UnterminatedAppend(text: bytes, line: bytes) returns (init: seq<bytes>, last: bytes)
    requires LinesOk(Split(text, NEWLINE)) && !Terminated(text, NEWLINE)
    requires line != [] && !IsSpace(line[0]) && NEWLINE !in line
    ensures Split(text, NEWLINE) == init + [last] && ThreeFields(last).Success?
    ensures Split(text + (line + [NEWLINE]), NEWLINE) == init + [last + line] && LinesOk(init + [last + line])
  {
    SplitExtend(text, line + [NEWLINE], NEWLINE);
    SplitLine(line, NEWLINE);
    var lines := Split(text, NEWLINE);
    init, last := lines[..|lines| - 1], lines[|lines| - 1];
    LinesOkLast(lines);
    ExtendedFields(last, line);
    LinesOkSnoc(init, last + line);
  }

  lemma LinesOkLast(lines: seq<bytes>)
    requires LinesOk(lines) && lines != [] && lines[|lines| - 1] != []
    ensures LinesOk(lines[..|lines| - 1]) && ThreeFields(lines[|lines| - 1]).Success?
    ensures lines == lines[..|lines| - 1] + [lines[|lines| - 1]]
  {
  }

  /** The lines of an unterminated file before and after an add. */
  lemma UnterminatedAdd(file: Option<bytes>, host: bytes, algorithm: bytes, key: bytes)
    returns (init: seq<bytes>, last: bytes)
    requires LinesOk(Split(Content(file), NEWLINE)) && !Terminated(Content(file), NEWLINE)
    requires IsToken(host) && IsToken(algorithm) && Check(file, host, algorithm, key) == Success(Unknown)
    ensures var after, line := Add(file, host, algorithm, key).value, Line(host, algorithm, key);
            && Split(Content(file), NEWLINE) == init + [last] && ThreeFields(last).Success?
            && Split(Content(after), NEWLINE) == init + [last + line]
            && line != [] && !IsSpace(line[0]) && LinesOk(init + [last + line])
  {
    LineFields(host, algorithm, key);
    LineStarts(host, algorithm, key);
    init, last := UnterminatedAppend(Content(file), Line(host, algorithm, key));
  }

  lemma LineStarts(host: bytes, algorithm: bytes, key: bytes)
    requires IsToken(host)
    ensures Line(host, algorithm, key) != [] && !IsSpace(Line(host, algorithm, key)[0])
  {
    assert Line(host, algorithm, key)[0] == host[0];
  }

  lemma LinesOkSnoc(lines: seq<bytes>, line: bytes)
    requires LinesOk(lines) && ThreeFields(line).Success?
    ensures LinesOk(lines + [line])
  {
  }

  /**
    * For every file that parses: an add fails exactly for a host with another key, changes nothing for a known key,
    * and for a new host is an insertion exactly if the file ended in a newline; afterwards it does.
    */
  lemma AddIsInsertion(file: Option<bytes>, host: bytes, algorithm: bytes, key: bytes)
    requires LinesOk(Split(Content(file), NEWLINE)) && IsToken(host) && IsToken(algorithm) && key != []
    ensures var m, e := MapOf(file), (algorithm, Base64.Encode(key));
            var r := Add(file, host, algorithm, key);
            && (r.Failure? <==> host in m && m[host] != e)
            && (r.Success? && host in m ==> r.value == file)
            && (host !in m ==>
                  r.Success? && WellFormed(r.value)
                    && (MapOf(r.value) == m[host := e] <==> Terminated(Content(file), NEWLINE)))
  {
    CheckIsLookup(file, host, algorithm, key);
    if Terminated(Content(file), NEWLINE) {
      TerminatedAdd(file, host, algorithm, key);
    } else if host !in MapOf(file) {
      UnterminatedIsNoInsertion(file, host, algorithm, key);
    }
  }

  lemma UnterminatedIsNoInsertion(file: Option<bytes>, host: bytes, algorithm: bytes, key: bytes)
    requires LinesOk(Split(Content(file), NEWLINE)) && !Terminated(Content(file), NEWLINE)
    requires IsToken(host) && IsToken(algorithm) && Check(file, host, algorithm, key) == Success(Unknown)
    ensures var after := Add(file, host, algorithm, key).value; WellFormed(after) && host !in MapOf(after)
  {
    var init, last := UnterminatedAdd(file, host, algorithm, key);
    GluedLine(init, last, Line(host, algorithm, key), host);
    UnknownParses(init + [last], host, algorithm, Base64.Encode(key));
    EndsInNewline(Content(file), Line(host, algorithm, key));
  }

  /** A line glued to another gives no entry to a host that had none. */
  lemma GluedLine(init: seq<bytes>, last: bytes, line: bytes, host: bytes)
    requires ThreeFields(last).Success? && line != [] && !IsSpace(line[0])
    ensures host !in Entries(init + [last]) ==> host !in Entries(init + [last + line])
  {
    ExtendedFields(last, line);
    EntriesSnoc(init, last);
    EntriesSnoc(init, last + line);
  }

  lemma EndsInNewline(text: bytes, line: bytes)
    ensures Terminated(text + (line + [NEWLINE]), NEWLINE)
  {
  }

  predicate SameEntry(m: HostMap, n: HostMap, host: bytes) {
    (host in m <==> host in n) && (host in m ==> m[host] == n[host])
  }

  ghost predicate OthersSame(m: HostMap, n: HostMap, host: bytes) {
    forall other :: other != host ==> SameEntry(m, n, other)
  }

  /** The lines that an add appends: one, unless a name has a newline in it. */
  function Appended(host: bytes, algorithm: bytes, key: bytes): seq<bytes> {
    Split(Line(host, algorithm, key) + [NEWLINE], NEWLINE)
  }

  /** Some lines have no entry for another host, unless it has one already. */
  predicate NothingNew(m: HostMap, host: bytes, lines: seq<bytes>) {
    forall other :: other in Entries(lines) ==> other == host || other in m
  }

  /** The last line keeps its key when this is put behind it, or its host has an earlier line. */
  predicate LastStays(lines: seq<bytes>, more: bytes) {
    lines != [] &&
    var init, last := lines[..|lines| - 1], lines[|lines| - 1];
    ThreeFields(last).Success? && (KeyStays(last, more) || ThreeFields(last).value.host in Entries(init))
  }

  /**
    * An add does no harm to others: behind a newline it appends no line for another new host; otherwise the last line
    * stays what it is, although the first of the new lines is glued to it.
    */
  predicate Harmless(file: Option<bytes>, host: bytes, algorithm: bytes, key: bytes) {
    var lines, added := Split(Content(file), NEWLINE), Appended(host, algorithm, key);
    if Terminated(Content(file), NEWLINE) then NothingNew(Entries(lines), host, added)
    else added != [] && LastStays(lines, added[0]) && NothingNew(Entries(lines), host, added[1..])
  }

  lemma SameBehind(m: HostMap, host: bytes, lines: seq<bytes>)
    ensures OthersSame(m, Entries(lines) + m, host) <==> NothingNew(m, host, lines)
  {
    if OthersSame(m, Entries(lines) + m, host) {
      forall other | other in Entries(lines)
        ensures other == host || other in m
      {
        assert other != host ==> SameEntry(m, Entries(lines) + m, other);
      }
    }
  }

  /** What becomes of the entries when something is put behind the last line. */
  lemma GluedEntries(init: seq<bytes>, last: bytes, more: bytes)
    requires ThreeFields(last).Success?
    ensures var m, n, h := Entries(init + [last]), Entries(init + [last + more]), ThreeFields(last).value.host;
            h in m && h in n && if KeyStays(last, more) || h in Entries(init) then n == m else n[h] != m[h]
  {
    ExtendedFields(last, more);
    EntriesSnoc(init, last);
    EntriesSnoc(init, last + more);
  }

  /** Some lines behind an unterminated last line: the first is glued to it. */
  lemma GluedOthers(lines: seq<bytes>, more: seq<bytes>, host: bytes)
    requires lines != [] && more != [] && ThreeFields(lines[|lines| - 1]).Success? && host !in Entries(lines)
    ensures OthersSame(Entries(lines), Entries(Glued(lines, more)), host)
       <==> LastStays(lines, more[0]) && NothingNew(Entries(lines), host, more[1..])
  {
    var init, last := lines[..|lines| - 1], lines[|lines| - 1];
    var m, n, h := Entries(lines), Entries(init + [last + more[0]]), ThreeFields(last).value.host;
    assert lines == init + [last];
    GluedEntries(init, last, more[0]);
    EntriesConcat(init + [last + more[0]], more[1..]);
    if LastStays(lines, more[0]) {
      SameBehind(m, host, more[1..]);
    } else {
      assert !SameEntry(m, Entries(more[1..]) + n, h);
    }
  }

  /**
    * Accepting the key of an unknown host, whatever its name, leaves the entries of all other hosts as they were if and
    * only if it is harmless.
    */
  lemma OtherEntriesSurvive(file: Option<bytes>, host: bytes, algorithm: bytes, key: bytes)
    requires Check(file, host, algorithm, key) == Success(Unknown)
    ensures OthersSame(MapOf(file), MapOf(Add(file, host, algorithm, key).value), host)
       <==> Harmless(file, host, algorithm, key)
  {
    var text, lines := Content(file), Split(Content(file), NEWLINE);
    var tail := Line(host, algorithm, key) + [NEWLINE];
    UnknownParses(lines, host, algorithm, Base64.Encode(key));
    if Terminated(text, NEWLINE) {
      SplitAppend(text, tail, NEWLINE);
      EntriesConcat(lines, Appended(host, algorithm, key));
      SameBehind(Entries(lines), host, Appended(host, algorithm, key));
    } else {
      SplitExtend(text, tail, NEWLINE);
      LinesOkLast(lines);
      GluedOthers(lines, Appended(host, algorithm, key), host);
    }
  }

  /** For names without blanks one line is appended, and it is the host's own. */
  lemma TokensAppended(m: HostMap, host: bytes, algorithm: bytes, key: bytes)
    requires IsToken(host) && IsToken(algorithm) && key != []
    ensures var line, added := Line(host, algorithm, key), Appended(host, algorithm, key);
            && added == [line] && line != [] && !IsSpace(line[0])
            && NothingNew(m, host, added) && NothingNew(m, host, added[1..])
  {
    var line, added := Line(host, algorithm, key), Appended(host, algorithm, key);
    LineFields(host, algorithm, key);
    LineStarts(host, algorithm, key);
    SplitLine(line, NEWLINE);
    assert added[1..] == [] && Entries(added[1..]) == map[];
  }

  /** So then it depends on the last line alone. */
  lemma TokensAreHarmless(file: Option<bytes>, host: bytes, algorithm: bytes, key: bytes)
    requires IsToken(host) && IsToken(algorithm) && Check(file, host, algorithm, key) == Success(Unknown)
    ensures LinesOk(Split(Content(file), NEWLINE))
    ensures Harmless(file, host, algorithm, key) <==> Withstands(file)
  {
    UnknownParses(Split(Content(file), NEWLINE), host, algorithm, Base64.Encode(key));
    TokensAppended(Entries(Split(Content(file), NEWLINE)), host, algorithm, key);
  }

  /** So then every answer about another host is what it was. */
  lemma OtherAnswersSurvive(file: Option<bytes>, host: bytes, algorithm: bytes, key: bytes,
                            other: bytes, algorithm': bytes, key': bytes)
    requires IsToken(host) && IsToken(algorithm) && Check(file, host, algorithm, key) == Success(Unknown)
    requires LinesOk(Split(Content(file), NEWLINE)) && Withstands(file) && other != host && key' != []
    ensures Check(Add(file, host, algorithm, key).value, other, algorithm', key')
      == Check(file, other, algorithm', key')
  {
    OtherEntriesSurvive(file, host, algorithm, key);
    TokensAreHarmless(file, host, algorithm, key);
    AddedParses(file, host, algorithm, key);
    CheckIsLookup(file, other, algorithm', key');
    CheckIsLookup(Add(file, host, algorithm, key).value, other, algorithm', key');
    assert SameEntry(MapOf(file), MapOf(Add(file, host, algorithm, key).value), other);
  }

  lemma AddedParses(file: Option<bytes>, host: bytes, algorithm: bytes, key: bytes)
    requires IsToken(host) && IsToken(algorithm) && Check(file, host, algorithm, key) == Success(Unknown)
    requires LinesOk(Split(Content(file), NEWLINE))
    ensures LinesOk(Split(Content(Add(file, host, algorithm, key).value), NEWLINE))
  {
    if Terminated(Content(file), NEWLINE) {
      TerminatedAdd(file, host, algorithm, key);
    } else {
      var init, last := UnterminatedAdd(file, host, algorithm, key);
    }
  }

  /**
    * The documentation promises that a matching key is accepted automatically. Where the last line does not
    * withstand an add, its host had a key that matched, and is refused as changed after the add.
    */
  lemma TrustedHostIsRefused(file: Option<bytes>, host: bytes, algorithm: bytes, key: bytes, trusted: Entry,
                             key': bytes)
    requires IsToken(host) && IsToken(algorithm) && Check(file, host, algorithm, key) == Success(Unknown)
    requires LinesOk(Split(Content(file), NEWLINE)) && !Withstands(file) && key' != []
    requires var lines := Split(Content(file), NEWLINE);
             lines != [] && ThreeFields(lines[|lines| - 1]) == Success(trusted)
    requires trusted.key == Base64.Encode(key')
    ensures Check(file, trusted.host, trusted.algorithm, key') == Success(Match)
    ensures Check(Add(file, host, algorithm, key).value, trusted.host, trusted.algorithm, key') == Success(Changed)
  {
    var init, last := UnterminatedAdd(file, host, algorithm, key);
    ExtendedFields(last, Line(host, algorithm, key));
    EntriesSnoc(init, last);
    EntriesSnoc(init, last + Line(host, algorithm, key));
    CheckIsLookup(file, trusted.host, trusted.algorithm, key');
    CheckIsLookup(Add(file, host, algorithm, key).value, trusted.host, trusted.algorithm, key');
  }

  /**
    * It also promises that an accepted key matches on later connections. For a host that is not known, that holds
    * exactly if the names have no blanks and the file ends in a newline: otherwise the new entry is glued to the
    * last line, or splits into other fields, and is not found.
    */
  lemma SavedKeyIsFoundAgain(file: Option<bytes>, host: bytes, algorithm: bytes, key: bytes)
    requires Check(file, host, algorithm, key) == Success(Unknown)
    ensures var after := Add(file, host, algorithm, key).value;
            Check(after, host, algorithm, key) == Success(Match)
            <==> IsToken(host) && IsToken(algorithm) && Terminated(Content(file), NEWLINE)
  {
    var after := Add(file, host, algorithm, key).value;
    UnknownParses(Split(Content(file), NEWLINE), host, algorithm, Base64.Encode(key));
    if Check(after, host, algorithm, key) == Success(Match) {
      MatchNeedsTokens(Split(after.value, NEWLINE), host, algorithm, Base64.Encode(key));
    }
    if IsToken(host) && IsToken(algorithm) {
      AddedParses(file, host, algorithm, key);
      CheckIsLookup(after, host, algorithm, key);
      if Terminated(Content(file), NEWLINE) {
        TerminatedAdd(file, host, algorithm, key);
      } else {
        UnterminatedIsNoInsertion(file, host, algorithm, key);
      }
    }
  }

  /** A file that is the client's own line without its newline: what it says of its host, and of others. */
  lemma OneLineFile(host: bytes, algorithm: bytes, key: bytes)
    requires IsToken(host) && IsToken(algorithm) && key != []
    ensures Split(Line(host, algorithm, key), NEWLINE) == [Line(host, algorithm, key)]
    ensures ThreeFields(Line(host, algorithm, key)) == Success(Entry(host, algorithm, Base64.Encode(key)))
    ensures Behind(Line(host, algorithm, key)) == [] && !Terminated(Line(host, algorithm, key), NEWLINE)
  {
    var line, text := Line(host, algorithm, key), Base64.Encode(key);
    LineFields(host, algorithm, key);
    SplitOne(line, NEWLINE);
    assert line[0] == host[0] && line[|line| - 1] in line;
    TokenRead(host, [SPACE] + (algorithm + ([SPACE] + text)));
    Base64.EncodePrintable(key);
    BlankTokenRead(SPACE, algorithm, [SPACE] + text);
    assert text + [] == text;
    BlankTokenRead(SPACE, text, []);
  }

  /**
    * The instance, for any two hosts: of a file with one line but no newline, the host on the line was trusted. After
    * another host was accepted, that one is still unknown, and the trusted one is refused.
    */
  lemma UnterminatedFileLosesKeys(trusted: bytes, host: bytes, algorithm: bytes, key: bytes, key': bytes)
    requires IsToken(trusted) && IsToken(host) && trusted != host && IsToken(algorithm) && key != [] && key' != []
    ensures var file := Some(Line(trusted, algorithm, key'));
            && Check(file, trusted, algorithm, key') == Success(Match)
            && Add(file, host, algorithm, key).Success?
            && var after := Add(file, host, algorithm, key).value;
            && Check(after, host, algorithm, key) != Success(Match)
            && Check(after, trusted, algorithm, key') == Success(Changed)
  {
    var line := Line(trusted, algorithm, key');
    var file, lines := Some(line), [line];
    OneLineFile(trusted, algorithm, key');
    assert lines[..0] == [] && lines[1..] == [];
    assert Entries([]) == map[] && CheckLines([], host, algorithm, Base64.Encode(key)) == Success(Unknown);
    assert Check(file, host, algorithm, key) == Success(Unknown);
    assert !Withstands(file);
    TrustedHostIsRefused(file, host, algorithm, key, Entry(trusted, algorithm, Base64.Encode(key')), key');
    SavedKeyIsFoundAgain(file, host, algorithm, key);
  }
}
