/** The detection engine (internal/detect): rule merge, stable priority order,
    first match, and reset-time extraction. Regexes and text parsers are opaque
    functions supplied by the caller. */
module Detect {
  import opened Types

  datatype Match = Match(exitCodeIn: seq<int>, stdoutRegex: string, stderrRegex: string, anyRegex: string)
  datatype Extractor = Extractor(source: string, regex: string, kind: string, format: string)
  datatype Rule = Rule(name: string, category: Category, priority: int, match_: Match, reset: Option<Extractor>)
  datatype Input = Input(exitCode: int, stdout: bytes, stderr: bytes)
  datatype DetectResult = DetectResult(category: Category, matchedRule: string, resetAt: Option<Time>)

  /** A compiled regex: whether it matches, and its first capture group. */
  datatype Regex = Regex(matches: bytes -> bool, capture: bytes -> Option<string>)

  /** The regex compiler and the text parsers, none of them modelled further.
      `parseClock` yields a time of day in nanoseconds since midnight. */
  datatype Oracle = Oracle(
    compile: string -> Option<Regex>,
    parseRfc3339: string -> Option<Time>,
    parseInt64: string -> Option<int>,
    parseHttpDate: string -> Option<Time>,
    parseDuration: string -> Option<Duration>,
    parseClock: (string, string) -> Option<int>)

  // ---- Stable order by descending priority ----

  /** Insert before every rule whose priority is not higher. */
  function Insert(r: Rule, rest: seq<Rule>): (s: seq<Rule>)
    ensures |s| == |rest| + 1
  {
    if rest == [] || r.priority >= rest[0].priority then [r] + rest
    else [rest[0]] + Insert(r, rest[1..])
  }

  /** sort.SliceStable with Priority descending. */
  function StableByPriority(rules: seq<Rule>): (s: seq<Rule>)
    ensures |s| == |rules|
  {
    if rules == [] then [] else Insert(rules[0], StableByPriority(rules[1..]))
  }

  predicate Descending(s: seq<Rule>) {
    forall i, j :: 0 <= i < j < |s| ==> s[i].priority >= s[j].priority
  }

  /** The rules of one priority, in order. */
  function AtPriority(s: seq<Rule>, p: int): seq<Rule> {
    if s == [] then []
    else (if s[0].priority == p then [s[0]] else []) + AtPriority(s[1..], p)
  }

  lemma {:induction false} InsertDescending(r: Rule, s: seq<Rule>)
    requires Descending(s)
    ensures Descending(Insert(r, s))
    ensures forall q :: q in Insert(r, s) ==> q == r || q in s
  {
    if s != [] && r.priority < s[0].priority {
      InsertDescending(r, s[1..]);
      var tail := Insert(r, s[1..]);
      forall j | 0 <= j < |tail| ensures s[0].priority >= tail[j].priority {
        assert tail[j] in tail;
        if tail[j] != r {
          var k :| 0 <= k < |s[1..]| && s[1..][k] == tail[j];
          assert s[k + 1] == tail[j];
        }
      }
    }
  }

  lemma {:induction false} InsertAtPriority(r: Rule, s: seq<Rule>, p: int)
    requires Descending(s)
    ensures AtPriority(Insert(r, s), p) == AtPriority([r] + s, p)
  {
    assert ([r] + s)[1..] == s;
    if s != [] && r.priority < s[0].priority {
      InsertAtPriority(r, s[1..], p);
      assert ([r] + s[1..])[1..] == s[1..];
      assert Insert(r, s)[1..] == Insert(r, s[1..]);
    }
  }

  /** The result is in descending priority, and within each priority it holds
      exactly the input's rules in the input's order: a stable permutation. */
  lemma {:induction false} SortIsStable(rules: seq<Rule>, p: int)
    ensures Descending(StableByPriority(rules))
    ensures AtPriority(StableByPriority(rules), p) == AtPriority(rules, p)
  {
    if rules != [] {
      SortIsStable(rules[1..], p);
      InsertDescending(rules[0], StableByPriority(rules[1..]));
      InsertAtPriority(rules[0], StableByPriority(rules[1..]), p);
      var tail := StableByPriority(rules[1..]);
      assert ([rules[0]] + tail)[1..] == tail;
    }
  }

  lemma {:induction false} SortedIsFixed(s: seq<Rule>)
    requires Descending(s)
    ensures StableByPriority(s) == s
  {
    if s != [] {
      SortedIsFixed(s[1..]);
    }
  }

  // ---- Merging built-in and user rules ----

  /** The last user rule with this name, if any. */
  function UserNamed(user: seq<Rule>, name: string): (u: Option<Rule>)
    ensures u.Some? ==> u.value.name == name && u.value in user
    ensures u.None? ==> forall k :: 0 <= k < |user| ==> user[k].name != name
  {
    if user == [] then None
    else if user[|user| - 1].name == name then Some(user[|user| - 1])
    else UserNamed(user[..|user| - 1], name)
  }

  /** It is the last of its name: the later of two entries for a key wins. */
  lemma {:induction false} NamedIsLast(user: seq<Rule>, name: string) returns (k: nat)
    ensures UserNamed(user, name).Some? ==>
              && k < |user| && user[k] == UserNamed(user, name).value
              && forall j :: k < j < |user| ==> user[j].name != name
  {
    k := 0;
    if user != [] {
      var last := |user| - 1;
      if user[last].name == name {
        k := last;
      } else {
        k := NamedIsLast(user[..last], name);
      }
    }
  }

  function Slots(builtin: seq<Rule>, user: seq<Rule>): (s: seq<Rule>)
    ensures |s| == |builtin|
  {
    seq(|builtin|, i requires 0 <= i < |builtin| =>
      var u := UserNamed(user, builtin[i].name);
      if u.Some? then u.value else builtin[i])
  }

  predicate NamesBuiltin(builtin: seq<Rule>, name: string) {
    exists k :: 0 <= k < |builtin| && builtin[k].name == name
  }

  function Added(builtin: seq<Rule>, user: seq<Rule>): seq<Rule> {
    if user == [] then []
    else
      var front := Added(builtin, user[..|user| - 1]);
      var u := user[|user| - 1];
      if NamesBuiltin(builtin, u.name) then front else front + [u]
  }

  /** The pre-sort sequence: built-in slots, replaced in place where a user rule
      has the same name, then the other user rules in their own order. */
  function PreSort(builtin: seq<Rule>, user: seq<Rule>): seq<Rule> {
    Slots(builtin, user) + Added(builtin, user)
  }

  /** The map holds the last user rule of each name. */
  ghost predicate Indexed(byName: map<string, Rule>, user: seq<Rule>) {
    forall n :: (n in byName <==> UserNamed(user, n).Some?) && (n in byName ==> UserNamed(user, n) == Some(byName[n]))
  }

  lemma IndexOne(byName: map<string, Rule>, user: seq<Rule>, i: nat)
    requires i < |user| && Indexed(byName, user[..i])
    ensures Indexed(byName[user[i].name := user[i]], user[..i + 1])
  {
    assert user[..i + 1][..i] == user[..i];
  }

  /** The names of user rules that took a built-in's slot. */
  ghost predicate Took(replaced: set<string>, builtin: seq<Rule>, byName: map<string, Rule>) {
    forall n :: n in replaced <==> NamesBuiltin(builtin, n) && n in byName
  }

  lemma TakeOne(replaced: set<string>, builtin: seq<Rule>, byName: map<string, Rule>, i: nat)
    requires i < |builtin| && Took(replaced, builtin[..i], byName)
    ensures var name := builtin[i].name;
            Took(if name in byName then replaced + {name} else replaced, builtin[..i + 1], byName)
  {
    forall n ensures NamesBuiltin(builtin[..i + 1], n) <==> NamesBuiltin(builtin[..i], n) || n == builtin[i].name {
      if NamesBuiltin(builtin[..i], n) {
        var k :| 0 <= k < i && builtin[..i][k].name == n;
        assert builtin[..i + 1][k].name == n;
      }
      if n == builtin[i].name {
        assert builtin[..i + 1][i].name == n;
      }
    }
  }

  lemma AddOne(replaced: set<string>, builtin: seq<Rule>, byName: map<string, Rule>, user: seq<Rule>, i: nat)
    requires i < |user| && Took(replaced, builtin, byName) && Indexed(byName, user)
    ensures Added(builtin, user[..i + 1]) ==
            Added(builtin, user[..i]) + if user[i].name in replaced then [] else [user[i]]
  {
    assert user[..i + 1][..i] == user[..i];
    assert UserNamed(user, user[i].name).Some?;
  }

  method Merge(builtin: seq<Rule>, user: seq<Rule>) returns (merged: seq<Rule>)
    ensures merged == StableByPriority(PreSort(builtin, user))
  {
    var userByName: map<string, Rule> := map[];
    for i := 0 to |user|
      invariant Indexed(userByName, user[..i])
    {
      IndexOne(userByName, user, i);
      userByName := userByName[user[i].name := user[i]];
    }
    assert user[..|user|] == user;

    merged := [];
    var replaced: set<string> := {};
    for i := 0 to |builtin|
      invariant merged == Slots(builtin, user)[..i]
      invariant Took(replaced, builtin[..i], userByName)
    {
      TakeOne(replaced, builtin, userByName, i);
      var b := builtin[i];
      if b.name in userByName {
        merged := merged + [userByName[b.name]];
        replaced := replaced + {b.name};
      } else {
        merged := merged + [b];
      }
    }
    assert builtin[..|builtin|] == builtin;
    assert merged == Slots(builtin, user);

    for i := 0 to |user|
      invariant merged == Slots(builtin, user) + Added(builtin, user[..i])
    {
      AddOne(replaced, builtin, userByName, user, i);
      if user[i].name !in replaced {
        merged := merged + [user[i]];
      }
    }
    merged := StableByPriority(merged);
  }

  // ---- The engine ----

  datatype CompiledRule = CompiledRule(
    rule: Rule,
    stdoutRegex: Option<Regex>,
    stderrRegex: Option<Regex>,
    anyRegex: Option<Regex>)

  /** An empty pattern is ignored; any other must compile. */
  function CompilePattern(o: Oracle, pattern: string): Option<Option<Regex>> {
    if pattern == "" then Some(None)
    else
      var re := o.compile(pattern);
      if re.Some? then Some(re) else None
  }

  function CompileRule(o: Oracle, r: Rule): Option<CompiledRule> {
    if r.category.Invalid? then None
    else
      var so := CompilePattern(o, r.match_.stdoutRegex);
      var se := CompilePattern(o, r.match_.stderrRegex);
      var an := CompilePattern(o, r.match_.anyRegex);
      if so.None? || se.None? || an.None? then None
      else if r.reset.Some? && o.compile(r.reset.value.regex).None? then None
      else Some(CompiledRule(r, so.value, se.value, an.value))
  }

  function Compiles(o: Oracle, rules: seq<Rule>): (ok: bool) {
    forall i :: 0 <= i < |rules| ==> CompileRule(o, rules[i]).Some?
  }

  /** An engine holds the rules in evaluation order; each one compiled. */
  function CompileAll(o: Oracle, rules: seq<Rule>): (cs: seq<CompiledRule>)
    requires Compiles(o, rules)
    ensures |cs| == |rules|
    ensures forall i :: 0 <= i < |rules| ==> CompileRule(o, rules[i]) == Some(cs[i]) && cs[i].rule == rules[i]
  {
    seq(|rules|, i requires 0 <= i < |rules| => CompileRule(o, rules[i]).value)
  }

  /** Fails at the first rule that does not compile; otherwise the engine's rules
      are the given ones in stable priority order. */
  method NewEngine(o: Oracle, rules: seq<Rule>) returns (ok: bool, engine: seq<CompiledRule>)
    ensures ok <==> Compiles(o, rules)
    ensures ok ==> Compiles(o, StableByPriority(rules)) && engine == CompileAll(o, StableByPriority(rules))
  {
    engine := [];
    for i := 0 to |rules|
      invariant Compiles(o, rules[..i])
    {
      if CompileRule(o, rules[i]).None? {
        ok := false;
        return;
      }
    }
    assert rules[..|rules|] == rules;
    SortCompiles(o, rules);
    engine := CompileAll(o, StableByPriority(rules));
    ok := true;
  }

  lemma {:induction false} InsertMembers(r: Rule, s: seq<Rule>, q: Rule)
    ensures q in Insert(r, s) <==> q == r || q in s
  {
    if s != [] && r.priority < s[0].priority {
      InsertMembers(r, s[1..], q);
      assert s == [s[0]] + s[1..];
    }
  }

  lemma {:induction false} SortMembers(s: seq<Rule>, q: Rule)
    ensures q in StableByPriority(s) <==> q in s
  {
    if s != [] {
      SortMembers(s[1..], q);
      InsertMembers(s[0], StableByPriority(s[1..]), q);
      assert s == [s[0]] + s[1..];
    }
  }

  lemma SortCompiles(o: Oracle, rules: seq<Rule>)
    requires Compiles(o, rules)
    ensures Compiles(o, StableByPriority(rules))
  {
    var s := StableByPriority(rules);
    forall i | 0 <= i < |s| ensures CompileRule(o, s[i]).Some? {
      SortMembers(rules, s[i]);
      var k :| 0 <= k < |rules| && rules[k] == s[i];
    }
  }

  function ConcatStreams(in_: Input): bytes {
    in_.stdout + [10] + in_.stderr
  }

  function Tail(b: bytes, max: int): bytes {
    if max <= 0 || |b| <= max then b else b[|b| - max..]
  }

  /** With a bound, the scanned output is its last bytes: all of them if they fit. */
  lemma TailIsEnd(b: bytes, max: int)
    ensures var t := Tail(b, max);
            && |t| == (if max <= 0 || |b| <= max then |b| else max)
            && t == b[|b| - |t|..]
  {
  }

  predicate Accepts(re: Option<Regex>, b: bytes) {
    re.Some? ==> re.value.matches(b)
  }

  predicate Matches(c: CompiledRule, in_: Input) {
    && (c.rule.match_.exitCodeIn != [] ==> in_.exitCode in c.rule.match_.exitCodeIn)
    && Accepts(c.stdoutRegex, in_.stdout)
    && Accepts(c.stderrRegex, in_.stderr)
    && Accepts(c.anyRegex, ConcatStreams(in_))
  }

  /** The first rule in evaluation order that matches. */
  function FirstMatch(engine: seq<CompiledRule>, in_: Input): Option<Rule> {
    if engine == [] then None
    else if Matches(engine[0], in_) then Some(engine[0].rule)
    else FirstMatch(engine[1..], in_)
  }

  function Classify(o: Oracle, engine: seq<CompiledRule>, in_: Input, now: Time, zone: int): DetectResult {
    var m := FirstMatch(engine, in_);
    if m.None? then DetectResult(Unknown, "", None)
    else DetectResult(m.value.category, m.value.name,
                      if m.value.reset.Some? then ExtractReset(o, m.value.reset.value, in_, now, zone) else None)
  }

  // ---- Reset times ----

  const NS_PER_SEC: int := 1_000_000_000
  const NS_PER_DAY: int := 86_400_000_000_000

  function SourceBytes(source: string, in_: Input): bytes {
    if source == "stdout" then in_.stdout
    else if source == "stderr" then in_.stderr
    else ConcatStreams(in_)
  }

  /** In a zone at a fixed offset from UTC: today's occurrence of the time of day
      if it is still ahead, else tomorrow's. */
  function NextClockOccurrence(timeOfDay: int, now: Time, zone: int): Time {
    var midnight := (now + zone) / NS_PER_DAY * NS_PER_DAY - zone;
    var candidate := midnight + timeOfDay;
    if candidate > now then candidate else candidate + NS_PER_DAY
  }

  /** The default layouts of clock_time, tried in order. */
  function ParseClock(o: Oracle, format: string, raw: string): Option<int> {
    if format != "" then o.parseClock(format, raw)
    else if o.parseClock("15:04", raw).Some? then o.parseClock("15:04", raw)
    else if o.parseClock("3:04pm", raw).Some? then o.parseClock("3:04pm", raw)
    else o.parseClock("3pm", raw)
  }

  function ParseReset(o: Oracle, x: Extractor, raw: string, now: Time, zone: int): Option<Time> {
    match x.kind
    case "rfc3339" => o.parseRfc3339(raw)
    case "unix_seconds" =>
      var sec := o.parseInt64(raw);
      if sec.Some? then Some(sec.value * NS_PER_SEC) else None
    case "http_retry_after" =>
      var sec := o.parseInt64(raw);
      if sec.Some? then Some(now + Wrap64(sec.value * NS_PER_SEC)) else o.parseHttpDate(raw)
    case "relative_duration" =>
      var d := o.parseDuration(if raw != "" && raw[0] == '+' then raw[1..] else raw);
      if d.Some? then Some(now + d.value) else None
    case "clock_time" =>
      var t := ParseClock(o, x.format, raw);
      if t.Some? then Some(NextClockOccurrence(t.value, now, zone)) else None
    case _ => None
  }

  function ExtractReset(o: Oracle, x: Extractor, in_: Input, now: Time, zone: int): Option<Time> {
    var re := o.compile(x.regex);
    if re.None? then None
    else
      var raw := re.value.capture(SourceBytes(x.source, in_));
      if raw.None? then None
      else
        var t := ParseReset(o, x, raw.value, now, zone);
        if t.None? || t.value <= now then None else t
  }

  /** Every reset time a classification hands on is strictly in the future,
      whatever the rules, the output, and the parsers. */
  lemma ResetStrictlyAfterNow(o: Oracle, engine: seq<CompiledRule>, in_: Input, now: Time, zone: int)
    ensures var r := Classify(o, engine, in_, now, zone).resetAt;
            r.Some? ==> r.value > now
  {
  }

  function TimeOfDay(t: Time, zone: int): int {
    (t + zone) % NS_PER_DAY
  }

  /** The next occurrence has the right time of day, is after now by at most a
      day, and no earlier instant after now has that time of day. */
  lemma ClockOccurrenceIsNext(timeOfDay: int, now: Time, zone: int)
    requires 0 <= timeOfDay < NS_PER_DAY
    ensures var t := NextClockOccurrence(timeOfDay, now, zone);
            && TimeOfDay(t, zone) == timeOfDay
            && now < t <= now + NS_PER_DAY
            && forall u :: now < u < t ==> TimeOfDay(u, zone) != timeOfDay
  {
    var t := NextClockOccurrence(timeOfDay, now, zone);
    var day := (now + zone) / NS_PER_DAY;
    assert day * NS_PER_DAY <= now + zone < (day + 1) * NS_PER_DAY;
    SameResidue(if t == day * NS_PER_DAY - zone + timeOfDay then day else day + 1, timeOfDay, t + zone);
    forall u | now < u < t ensures TimeOfDay(u, zone) != timeOfDay {
      if TimeOfDay(u, zone) == timeOfDay {
        SameTimeOfDayApart(u, t, zone);
      }
    }
  }

  lemma SameTimeOfDayApart(u: Time, t: Time, zone: int)
    requires u < t && TimeOfDay(u, zone) == TimeOfDay(t, zone)
    ensures t - u >= NS_PER_DAY
  {
    var p := (u + zone) / NS_PER_DAY;
    var q := (t + zone) / NS_PER_DAY;
    assert t - u == (q - p) * NS_PER_DAY;
  }

  lemma SameResidue(k: int, r: int, x: int)
    requires 0 <= r < NS_PER_DAY && x == k * NS_PER_DAY + r
    ensures x % NS_PER_DAY == r
  {
  }

  /** A Retry-After of a positive number of seconds is honoured to the second
      exactly when the delay fits in an int64 count of nanoseconds. */
  lemma RetryAfterHonouredIff(o: Oracle, x: Extractor, raw: string, now: Time, zone: int, sec: int)
    requires x.kind == "http_retry_after"
    requires o.parseInt64(raw) == Some(sec) && 0 < sec <= MAX_INT64
    ensures ParseReset(o, x, raw, now, zone) == Some(now + sec * NS_PER_SEC) <==> sec * NS_PER_SEC <= MAX_INT64
  {
  }

  /** The time of day some text gives: in the extractor's own layout, or in the first
      default layout that reads it. */
  predicate ReadsClock(o: Oracle, format: string, raw: string, timeOfDay: int) {
    if format != "" then o.parseClock(format, raw) == Some(timeOfDay)
    else || o.parseClock("15:04", raw) == Some(timeOfDay)
         || (o.parseClock("15:04", raw).None? && o.parseClock("3:04pm", raw) == Some(timeOfDay))
         || (o.parseClock("15:04", raw).None? && o.parseClock("3:04pm", raw).None?
             && o.parseClock("3pm", raw) == Some(timeOfDay))
  }

  /** The instant some text means to an extractor of each kind. */
  predicate Means(o: Oracle, x: Extractor, raw: string, now: Time, zone: int, t: Time) {
    || (x.kind == "rfc3339" && o.parseRfc3339(raw) == Some(t))
    || (x.kind == "unix_seconds" && o.parseInt64(raw).Some? && t == o.parseInt64(raw).value * 1_000_000_000)
    || (x.kind == "http_retry_after" && o.parseInt64(raw).Some?
        && t - now == Wrap64(o.parseInt64(raw).value * 1_000_000_000))
    || (x.kind == "http_retry_after" && o.parseInt64(raw).None? && o.parseHttpDate(raw) == Some(t))
    || (x.kind == "relative_duration" && ['+'] <= raw && o.parseDuration(raw[1..]) == Some(t - now))
    || (x.kind == "relative_duration" && !(['+'] <= raw) && o.parseDuration(raw) == Some(t - now))
    || (x.kind == "clock_time" && ReadsClock(o, x.format, raw, TimeOfDay(t, zone)) && now < t <= now + NS_PER_DAY)
  }

  /** The extractor's pattern captures, in the stream it names, text that means `t`, and
      `t` is in the future. */
  predicate NamesReset(o: Oracle, x: Extractor, in_: Input, now: Time, zone: int, t: Time) {
    var stream := if x.source == "stdout" then in_.stdout
                  else if x.source == "stderr" then in_.stderr
                  else in_.stdout + [10] + in_.stderr;
    && t > now && o.compile(x.regex).Some?
    && o.compile(x.regex).value.capture(stream).Some?
    && Means(o, x, o.compile(x.regex).value.capture(stream).value, now, zone, t)
  }

  /** A parsed time of day is one. */
  ghost predicate ReadsDays(o: Oracle) {
    forall format, raw :: o.parseClock(format, raw).Some? ==> 0 <= o.parseClock(format, raw).value < NS_PER_DAY
  }

  lemma ClockIsNextIff(timeOfDay: int, now: Time, zone: int, t: Time)
    requires 0 <= timeOfDay < NS_PER_DAY
    ensures NextClockOccurrence(timeOfDay, now, zone) == t <==>
            TimeOfDay(t, zone) == timeOfDay && now < t <= now + NS_PER_DAY
  {
    ClockOccurrenceIsNext(timeOfDay, now, zone);
    var u := NextClockOccurrence(timeOfDay, now, zone);
    if TimeOfDay(t, zone) == timeOfDay && now < t <= now + NS_PER_DAY && u < t {
      SameTimeOfDayApart(u, t, zone);
    }
  }

  /** A reset time is handed on exactly when the output names it. */
  lemma ExtractResetIff(o: Oracle, x: Extractor, in_: Input, now: Time, zone: int, t: Time)
    requires ReadsDays(o)
    ensures ExtractReset(o, x, in_, now, zone) == Some(t) <==> NamesReset(o, x, in_, now, zone, t)
  {
    var re := o.compile(x.regex);
    if re.Some? && re.value.capture(SourceBytes(x.source, in_)).Some? {
      var raw := re.value.capture(SourceBytes(x.source, in_)).value;
      ReadIff(o, x, raw, now, zone, t);
    }
  }

  lemma ReadIff(o: Oracle, x: Extractor, raw: string, now: Time, zone: int, t: Time)
    requires ReadsDays(o)
    ensures ParseReset(o, x, raw, now, zone) == Some(t) <==> Means(o, x, raw, now, zone, t)
  {
    var c := ParseClock(o, x.format, raw);
    if c.Some? {
      ClockIsNextIff(c.value, now, zone, t);
    }
  }

  // ---- Which rule wins ----

  /** Rule i of the pre-sort sequence beats rule j: a higher priority, or the same
      priority from an earlier slot. */
  predicate Beats(s: seq<Rule>, i: int, j: int)
    requires 0 <= i < |s| && 0 <= j < |s|
  {
    s[i].priority > s[j].priority || (s[i].priority == s[j].priority && i <= j)
  }

  /** An empty pattern asks nothing; any other, compiled, must match. */
  predicate PatternFits(o: Oracle, pattern: string, b: bytes) {
    pattern == "" || (o.compile(pattern).Some? && o.compile(pattern).value.matches(b))
  }

  /** What a rule's own text asks of an exit. */
  predicate RuleMatches(o: Oracle, r: Rule, in_: Input) {
    && (r.match_.exitCodeIn == [] || in_.exitCode in r.match_.exitCodeIn)
    && PatternFits(o, r.match_.stdoutRegex, in_.stdout)
    && PatternFits(o, r.match_.stderrRegex, in_.stderr)
    && PatternFits(o, r.match_.anyRegex, in_.stdout + [10] + in_.stderr)
  }

  predicate PatternCompiles(o: Oracle, pattern: string) {
    pattern == "" || o.compile(pattern).Some?
  }

  /** A rule is accepted exactly when its category is known and every pattern in it,
      the extractor's included, compiles. */
  lemma CompilesIff(o: Oracle, r: Rule)
    ensures CompileRule(o, r).Some? <==>
            && !r.category.Invalid?
            && PatternCompiles(o, r.match_.stdoutRegex) && PatternCompiles(o, r.match_.stderrRegex)
            && PatternCompiles(o, r.match_.anyRegex)
            && (r.reset.Some? ==> o.compile(r.reset.value.regex).Some?)
  {
  }

  /** The compiled rule matches exactly what the rule's text asks. */
  lemma MatchesIff(o: Oracle, r: Rule, in_: Input)
    requires CompileRule(o, r).Some?
    ensures Matches(CompileRule(o, r).value, in_) <==> RuleMatches(o, r, in_)
  {
  }

  /** Slot `w` holds the winner for this input. */
  predicate Wins(o: Oracle, s: seq<Rule>, in_: Input, w: int) {
    && 0 <= w < |s|
    && RuleMatches(o, s[w], in_)
    && forall j :: 0 <= j < |s| && RuleMatches(o, s[j], in_) ==> Beats(s, w, j)
  }

  /** Scanning slots in order, keeping the best so far. */
  function Best(o: Oracle, s: seq<Rule>, in_: Input): Option<Rule> {
    if s == [] then None
    else
      var rest := Best(o, s[1..], in_);
      if RuleMatches(o, s[0], in_) && (rest.None? || s[0].priority >= rest.value.priority) then Some(s[0]) else rest
  }

  lemma {:induction false} BestWins(o: Oracle, s: seq<Rule>, in_: Input) returns (w: int)
    ensures Best(o, s, in_).None? ==> forall j :: 0 <= j < |s| ==> !RuleMatches(o, s[j], in_)
    ensures Best(o, s, in_).Some? ==> Wins(o, s, in_, w) && s[w] == Best(o, s, in_).value
  {
    w := 0;
    if s != [] {
      var tail := s[1..];
      var v := BestWins(o, tail, in_);
      assert forall j :: 1 <= j < |s| ==> s[j] == tail[j - 1];
      if Best(o, s, in_).Some? {
        if || Best(o, s, in_) != Best(o, tail, in_)
           || (RuleMatches(o, s[0], in_) && s[0].priority >= Best(o, tail, in_).value.priority) {
          w := 0;
        } else {
          w := v + 1;
        }
      }
    }
  }

  /** First match over rules, before compiling. */
  function FirstRule(o: Oracle, s: seq<Rule>, in_: Input): Option<Rule> {
    if s == [] then None
    else if RuleMatches(o, s[0], in_) then Some(s[0])
    else FirstRule(o, s[1..], in_)
  }

  lemma {:induction false} FirstMatchIsFirstRule(o: Oracle, s: seq<Rule>, in_: Input)
    requires Compiles(o, s)
    ensures FirstMatch(CompileAll(o, s), in_) == FirstRule(o, s, in_)
  {
    if s != [] {
      FirstMatchIsFirstRule(o, s[1..], in_);
      MatchesIff(o, s[0], in_);
      assert CompileAll(o, s)[1..] == CompileAll(o, s[1..]);
    }
  }

  lemma {:induction false} InsertFirst(o: Oracle, r: Rule, s: seq<Rule>, in_: Input)
    requires Descending(s)
    ensures var f := FirstRule(o, s, in_);
            FirstRule(o, Insert(r, s), in_) ==
              if RuleMatches(o, r, in_) && (f.None? || r.priority >= f.value.priority) then Some(r) else f
  {
    if s == [] || r.priority >= s[0].priority {
      assert ([r] + s)[1..] == s;
      if FirstRule(o, s, in_).Some? {
        FirstRuleBelowHead(o, s, in_);
      }
    } else {
      InsertFirst(o, r, s[1..], in_);
      var i := Insert(r, s[1..]);
      assert ([s[0]] + i)[1..] == i;
    }
  }

  lemma {:induction false} FirstRuleBelowHead(o: Oracle, s: seq<Rule>, in_: Input)
    requires Descending(s) && FirstRule(o, s, in_).Some?
    ensures s[0].priority >= FirstRule(o, s, in_).value.priority
  {
    if !RuleMatches(o, s[0], in_) {
      FirstRuleBelowHead(o, s[1..], in_);
    }
  }

  lemma {:induction false} FirstOfSortedIsBest(o: Oracle, s: seq<Rule>, in_: Input)
    ensures FirstRule(o, StableByPriority(s), in_) == Best(o, s, in_)
  {
    if s != [] {
      FirstOfSortedIsBest(o, s[1..], in_);
      SortIsStable(s[1..], 0);
      InsertFirst(o, s[0], StableByPriority(s[1..]), in_);
    }
  }

  /** The engine built from merged rules, as startRuntime builds it. */
  function EngineRules(builtin: seq<Rule>, user: seq<Rule>): seq<Rule> {
    StableByPriority(StableByPriority(PreSort(builtin, user)))
  }

  /** The engine's own sort leaves merged rules as they are. */
  lemma SecondSortIsIdentity(builtin: seq<Rule>, user: seq<Rule>)
    ensures EngineRules(builtin, user) == StableByPriority(PreSort(builtin, user))
  {
    SortIsStable(PreSort(builtin, user), 0);
    SortedIsFixed(StableByPriority(PreSort(builtin, user)));
  }

  /** Classification over merged rules reports the matching rule of highest
      priority, ties going to the earlier pre-sort slot, with the reset time its own
      extractor names, and UNKNOWN exactly when no slot matches. */
  lemma ClassifyReportsWinner(o: Oracle, builtin: seq<Rule>, user: seq<Rule>, in_: Input, now: Time, zone: int)
    returns (w: int)
    requires Compiles(o, EngineRules(builtin, user)) && ReadsDays(o)
    ensures var s := PreSort(builtin, user);
            var r := Classify(o, CompileAll(o, EngineRules(builtin, user)), in_, now, zone);
            if exists j :: 0 <= j < |s| && RuleMatches(o, s[j], in_)
            then && Wins(o, s, in_, w) && r.category == s[w].category && r.matchedRule == s[w].name
                 && ResetIsNamed(o, s[w], in_, now, zone, r.resetAt)
            else r == DetectResult(Unknown, "", None)
  {
    var s := PreSort(builtin, user);
    SecondSortIsIdentity(builtin, user);
    FirstMatchIsFirstRule(o, EngineRules(builtin, user), in_);
    FirstOfSortedIsBest(o, s, in_);
    w := BestWins(o, s, in_);
    if exists j :: 0 <= j < |s| && RuleMatches(o, s[j], in_) {
      ResetOfRule(o, s[w], in_, now, zone);
    }
  }

  /** The reset time handed on for a rule: the one its extractor names, if it names one. */
  ghost predicate ResetIsNamed(o: Oracle, r: Rule, in_: Input, now: Time, zone: int, at: Option<Time>) {
    if r.reset.None? then at.None?
    else if at.Some? then NamesReset(o, r.reset.value, in_, now, zone, at.value)
    else forall t :: !NamesReset(o, r.reset.value, in_, now, zone, t)
  }

  lemma ResetOfRule(o: Oracle, r: Rule, in_: Input, now: Time, zone: int)
    requires ReadsDays(o)
    ensures ResetIsNamed(o, r, in_, now, zone,
                         if r.reset.Some? then ExtractReset(o, r.reset.value, in_, now, zone) else None)
  {
    if r.reset.Some? {
      forall t ensures ExtractReset(o, r.reset.value, in_, now, zone) == Some(t) <==>
                       NamesReset(o, r.reset.value, in_, now, zone, t) {
        ExtractResetIff(o, r.reset.value, in_, now, zone, t);
      }
    }
  }

  /** The best of two stretches of slots: the later one only if strictly higher. */
  lemma {:induction false} BestOfBoth(o: Oracle, xs: seq<Rule>, ys: seq<Rule>, in_: Input)
    ensures var b, c := Best(o, xs, in_), Best(o, ys, in_);
            Best(o, xs + ys, in_) ==
              if c.Some? && (b.None? || c.value.priority > b.value.priority) then c else b
  {
    if xs == [] {
      assert xs + ys == ys;
    } else {
      BestOfBoth(o, xs[1..], ys, in_);
      assert (xs + ys)[1..] == xs[1..] + ys;
    }
  }

  lemma {:induction false} AddedBoth(builtin: seq<Rule>, xs: seq<Rule>, ys: seq<Rule>)
    ensures Added(builtin, xs + ys) == Added(builtin, xs) + Added(builtin, ys)
  {
    if ys == [] {
      assert xs + ys == xs;
    } else {
      AddedBoth(builtin, xs, ys[..|ys| - 1]);
      assert (xs + ys)[..|xs + ys| - 1] == xs + ys[..|ys| - 1];
    }
  }

  lemma {:induction false} NamedBesides(before: seq<Rule>, u: Rule, after: seq<Rule>, name: string)
    requires name != u.name
    ensures UserNamed(before + [u] + after, name) == UserNamed(before + after, name)
  {
    if after == [] {
      assert before + [u] + after == before + [u] && before + after == before;
      assert (before + [u])[..|before|] == before;
    } else {
      var front, last := after[..|after| - 1], after[|after| - 1];
      NamedBesides(before, u, front, name);
      TakeBack(before + [u], after);
      TakeBack(before, after);
    }
  }

  lemma TakeBack(xs: seq<Rule>, ys: seq<Rule>)
    requires ys != []
    ensures (xs + ys)[..|xs + ys| - 1] == xs + ys[..|ys| - 1] && (xs + ys)[|xs + ys| - 1] == ys[|ys| - 1]
  {
  }

  /** The pre-sort slots ahead of a rule that stands between these user rules. */
  function Ahead(builtin: seq<Rule>, before: seq<Rule>, after: seq<Rule>): seq<Rule> {
    Slots(builtin, before + after) + Added(builtin, before)
  }

  /** A user rule is added exactly when no built-in has its name; with AddedBoth, in the
      user's order. */
  lemma AddedOne(builtin: seq<Rule>, u: Rule)
    ensures Added(builtin, [u]) == if exists k :: 0 <= k < |builtin| && builtin[k].name == u.name then [] else [u]
  {
    assert [u][..0] == [] && Added(builtin, []) == [];
  }

  /** A built-in's slot holds the last user rule of its name, or the built-in. */
  lemma SlotHolds(builtin: seq<Rule>, user: seq<Rule>, i: nat) returns (k: nat)
    requires i < |builtin|
    ensures |PreSort(builtin, user)| == |builtin| + |Added(builtin, user)|
    ensures var slot := PreSort(builtin, user)[i];
            var name := builtin[i].name;
            if exists j :: 0 <= j < |user| && user[j].name == name
            then && k < |user| && slot == user[k] && user[k].name == name
                 && forall j :: k < j < |user| ==> user[j].name != name
            else slot == builtin[i]
  {
    k := NamedIsLast(user, builtin[i].name);
  }

  lemma AddedAround(builtin: seq<Rule>, before: seq<Rule>, u: Rule, after: seq<Rule>)
    requires !NamesBuiltin(builtin, u.name)
    ensures Added(builtin, before + [u] + after) == Added(builtin, before) + ([u] + Added(builtin, after))
  {
    AddedBoth(builtin, before + [u], after);
    AddedBoth(builtin, before, [u]);
    assert [u][..0] == [] && Added(builtin, [u]) == [u];
    Regroup(Added(builtin, before), [u], Added(builtin, after));
  }

  lemma SlotsAround(builtin: seq<Rule>, before: seq<Rule>, u: Rule, after: seq<Rule>)
    requires !NamesBuiltin(builtin, u.name)
    ensures Slots(builtin, before + [u] + after) == Slots(builtin, before + after)
  {
    forall i | 0 <= i < |builtin|
      ensures Slots(builtin, before + [u] + after)[i] == Slots(builtin, before + after)[i]
    {
      NamedBesides(before, u, after, builtin[i].name);
    }
  }

  lemma PreSortAround(builtin: seq<Rule>, before: seq<Rule>, u: Rule, after: seq<Rule>)
    requires !NamesBuiltin(builtin, u.name)
    ensures PreSort(builtin, before + [u] + after) == Ahead(builtin, before, after) + ([u] + Added(builtin, after))
    ensures PreSort(builtin, before + after) == Ahead(builtin, before, after) + Added(builtin, after)
  {
    SlotsAround(builtin, before, u, after);
    AddedAround(builtin, before, u, after);
    AddedBoth(builtin, before, after);
    Regroup(Slots(builtin, before + after), Added(builtin, before), [u] + Added(builtin, after));
    Regroup(Slots(builtin, before + after), Added(builtin, before), Added(builtin, after));
  }

  lemma WinnerIsBest(o: Oracle, builtin: seq<Rule>, user: seq<Rule>, in_: Input)
    ensures FirstRule(o, EngineRules(builtin, user), in_) == Best(o, PreSort(builtin, user), in_)
  {
    SecondSortIsIdentity(builtin, user);
    FirstOfSortedIsBest(o, PreSort(builtin, user), in_);
  }

  /** A user rule with a name no built-in has, inserted anywhere among the user rules,
      takes over exactly the inputs it matches whose winner had a lower priority, or had
      the same priority from a slot behind it; it changes no other winner. */
  lemma FreshRuleTakesOver(o: Oracle, builtin: seq<Rule>, before: seq<Rule>, u: Rule, after: seq<Rule>, in_: Input)
    requires !NamesBuiltin(builtin, u.name)
    ensures var was := FirstRule(o, EngineRules(builtin, before + after), in_);
            var ahead := FirstRule(o, StableByPriority(Ahead(builtin, before, after)), in_);
            FirstRule(o, EngineRules(builtin, before + [u] + after), in_) ==
              if && RuleMatches(o, u, in_)
                 && (|| was.None? || was.value.priority < u.priority
                     || (was.value.priority == u.priority && (ahead.None? || ahead.value.priority < u.priority)))
              then Some(u) else was
  {
    WinnerIsBest(o, builtin, before + after, in_);
    WinnerIsBest(o, builtin, before + [u] + after, in_);
    FirstOfSortedIsBest(o, Ahead(builtin, before, after), in_);
    PreSortAround(builtin, before, u, after);
    var slots, rest := Ahead(builtin, before, after), Added(builtin, after);
    BestOfBoth(o, slots, rest, in_);
    BestOfBoth(o, slots, [u] + rest, in_);
    BestOfBoth(o, [u], rest, in_);
    assert [u][1..] == [];
  }

  /** Appended after all user rules, it changes the winner only for inputs it matches
      whose previous winner had a strictly lower priority. */
  lemma FreshRuleTakesOnlyLower(o: Oracle, builtin: seq<Rule>, user: seq<Rule>, u: Rule, in_: Input)
    requires !NamesBuiltin(builtin, u.name)
    ensures var was := FirstRule(o, EngineRules(builtin, user), in_);
            FirstRule(o, EngineRules(builtin, user + [u]), in_) ==
              if RuleMatches(o, u, in_) && (was.None? || was.value.priority < u.priority) then Some(u) else was
  {
    FreshRuleTakesOver(o, builtin, user, u, [], in_);
    assert user + [] == user && user + [u] + [] == user + [u];
    SecondSortIsIdentity(builtin, user);
  }
}
