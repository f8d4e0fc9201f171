/**
 * Creating a link through its layers: the service's bounded loop (internal/shortener), the cache's
 * pass-through (internal/cache), the breaker (internal/resilience) and the uniquely keyed table
 * (internal/store/postgres.go).
 */
module LinkService {
  import opened Basics
  import opened CacheStore

  const MAX_CREATE_RETRIES: nat := 5

  /** A parsed URL: scheme, host, and everything after the host. */
  datatype Url = Url(scheme: string, host: string, rest: string)

  /** URL.String. */
  function Rendered(u: Url): string {
    u.scheme + "://" + u.host + u.rest
  }

  /** strings.ToLower on ASCII. */
  function Lower(s: string): (r: string)
    ensures |r| == |s|
    ensures forall i :: 0 <= i < |s| ==> !('A' <= r[i] <= 'Z')
    ensures forall i :: 0 <= i < |s| && r[i] != s[i] ==> 'A' <= s[i] <= 'Z' && r[i] as int == s[i] as int + 32
  {
    seq(|s|, i requires 0 <= i < |s| => if 'A' <= s[i] <= 'Z' then (s[i] as int + 32) as char else s[i])
  }

  function Lowered(u: Url): Url {
    u.(scheme := Lower(u.scheme), host := Lower(u.host))
  }

  /** normalizeURL after trimming. Parsing and the blocked address ranges belong to the Go library. */
  function Normalize(raw: string, parse: string -> Option<Url>, blocked: string -> bool): (r: Option<string>)
    ensures r.Some? ==> IsHttp(r.value)
    ensures r.Some? <==>
      raw != "" && parse(raw).Some? &&
      var u := parse(raw).value;
      Lower(u.scheme) in ["http", "https"] && u.host != "" && !blocked(Lower(u.host))
    ensures r.Some? ==> r.value == Rendered(Lowered(parse(raw).value))
  {
    if raw == "" then None
    else
      match parse(raw)
      case None => None
      case Some(u) =>
        var scheme, host := Lower(u.scheme), Lower(u.host);
        if scheme != "http" && scheme != "https" then None
        else if u.host == "" || blocked(host) then None
        else
          var url := scheme + "://" + host + u.rest;
          assert scheme + "://" <= url;
          Some(url)
  }

  lemma LowerTwice(s: string)
    ensures Lower(Lower(s)) == Lower(s)
  {
  }

  /**
   * Normalizing twice is normalizing once, as long as the parser reads back what was rendered: the
   * stored URL is a fixed point, whatever the case of the scheme and host that were sent.
   */
  lemma NormalizedStays(raw: string, parse: string -> Option<Url>, blocked: string -> bool)
    requires Normalize(raw, parse, blocked).Some?
    requires var v := Lowered(parse(raw).value); parse(Rendered(v)) == Some(v)
    ensures var url := Normalize(raw, parse, blocked); Normalize(url.value, parse, blocked) == url
  {
    var u := parse(raw).value;
    LowerTwice(u.scheme);
    LowerTwice(u.host);
  }

  /** What the environment does to one insert: nothing, refuse it, or lose the answer. */
  datatype Weather = Fine | BreakerOpen | Down | AckLost

  datatype StoreResult = Stored | CodeExists | Unavailable | StoreError

  datatype Result = Created(code: string) | InvalidURL | GenerateFailed | PersistFailed(cause: StoreResult) | NoUniqueCode

  /** One write as the table sees it. */
  function InsertEffect(rows: Rows, code: string, url: string, w: Weather): Rows {
    if (w.Fine? || w.AckLost?) && code !in rows then rows[code := url] else rows
  }

  /** The same write as the caller sees it. */
  function InsertResult(rows: Rows, code: string, w: Weather): StoreResult {
    match w
    case BreakerOpen => Unavailable
    case Down => StoreError
    case AckLost => StoreError
    case Fine => if code in rows then CodeExists else Stored
  }

  class Store {
    var rows: Rows

    constructor ()
      ensures rows == map[]
    {
      rows := map[];
    }

    /** INSERT with a unique constraint on code. */
    method PostgresCreate(code: string, url: string, w: Weather) returns (r: StoreResult)
      requires !w.BreakerOpen?
      modifies this
      ensures rows == InsertEffect(old(rows), code, url, w) && r == InsertResult(old(rows), code, w)
      ensures rows == if !w.Down? && code !in old(rows) then old(rows)[code := url] else old(rows)
      ensures r == if !w.Fine? then StoreError else if code in old(rows) then CodeExists else Stored
    {
      if w.Down? {
        return StoreError;
      }
      var collides := code in rows;
      if !collides {
        rows := rows[code := url];
      }
      if w.AckLost? {
        return StoreError;
      }
      r := if collides then CodeExists else Stored;
    }

    /** Through the breaker: refused without a call, or called exactly once. */
    method ResilientCreate(code: string, url: string, w: Weather) returns (r: StoreResult)
      modifies this
      ensures rows == InsertEffect(old(rows), code, url, w) && r == InsertResult(old(rows), code, w)
      ensures r.Unavailable? <==> w.BreakerOpen?
      ensures w.BreakerOpen? ==> rows == old(rows)
    {
      if w.BreakerOpen? {
        return Unavailable;
      }
      r := PostgresCreate(code, url, w);
    }

    method CachingCreate(code: string, url: string, w: Weather) returns (r: StoreResult)
      modifies this
      ensures rows == InsertEffect(old(rows), code, url, w) && r == InsertResult(old(rows), code, w)
    {
      r := ResilientCreate(code, url, w);
    }

    /**
     * Service.Create. Attempt i draws codes[i] from the generator (None if it fails) and meets
     * weather[i]; others(i, rows) is what concurrent requests have made of the table by then.
     * `written` collects, over all attempts, every code whose row an insert of this call changed.
     */
    method Create(url: Option<string>, codes: seq<Option<string>>, weather: seq<Weather>, others: (nat, Rows) -> Rows)
      returns (r: Result, ghost written: multiset<string>)
      requires |codes| == |weather| == MAX_CREATE_RETRIES
      modifies this
      ensures url.None? ==> r == InvalidURL && rows == old(rows) && written == multiset{}
      ensures url.Some? ==> Outcome(r, rows, written) == Attempts(0, old(rows), url.value, codes, weather, others)
    {
      written := multiset{};
      if url.None? {
        return InvalidURL, written;
      }
      for attempt := 0 to MAX_CREATE_RETRIES
        invariant Attempts(0, old(rows), url.value, codes, weather, others)
               == Attempts(attempt, rows, url.value, codes, weather, others).After(written)
      {
        rows := others(attempt, rows);
        if codes[attempt].None? {
          return GenerateFailed, written;
        }
        var code := codes[attempt].value;
        ghost var before := rows;
        var e := CachingCreate(code, url.value, weather[attempt]);
        written := written + multiset(Changed(before, rows));
        if e.Stored? {
          return Created(code), written;
        }
        if !e.CodeExists? {
          return PersistFailed(e), written;
        }
      }
      r := NoUniqueCode;
    }
  }

  /** Every code whose row differs: inserted, replaced or removed. */
  ghost function Changed(before: Rows, after: Rows): set<string> {
    set c | c in before.Keys + after.Keys && Lookup(before, c) != Lookup(after, c)
  }

  /** The answer, the final table, and every code whose row this call changed, once for each change. */
  datatype Outcome = Outcome(result: Result, rows: Rows, written: multiset<string>) {
    ghost function After(earlier: multiset<string>): Outcome {
      this.(written := earlier + written)
    }
  }

  /** The loop from attempt i on. What a colliding attempt changed is counted like any other. */
  ghost function Attempts(i: nat, rows: Rows, url: string, codes: seq<Option<string>>, weather: seq<Weather>,
                          others: (nat, Rows) -> Rows): Outcome
    requires |codes| == |weather| == MAX_CREATE_RETRIES
    decreases MAX_CREATE_RETRIES - i
  {
    if i >= MAX_CREATE_RETRIES then Outcome(NoUniqueCode, rows, multiset{})
    else
      var now := others(i, rows);
      if codes[i].None? then Outcome(GenerateFailed, now, multiset{})
      else
        var code := codes[i].value;
        var after := InsertEffect(now, code, url, weather[i]);
        var written := multiset(Changed(now, after));
        match InsertResult(now, code, weather[i])
        case Stored => Outcome(Created(code), after, written)
        case CodeExists => Attempts(i + 1, after, url, codes, weather, others).After(written)
        case e => Outcome(PersistFailed(e), after, written)
  }

  /** The table at attempt j's turn, if the attempts from i up to it changed nothing. */
  ghost function Turn(i: nat, j: nat, rows: Rows, others: (nat, Rows) -> Rows): Rows
    requires i <= j
    decreases j - i
  {
    if i == j then others(i, rows) else Turn(i + 1, j, others(i, rows), others)
  }

  /** One insert: it changes its own row alone, and only from absent to the URL it was given. */
  lemma InsertWrites(now: Rows, code: string, url: string, w: Weather)
    ensures var after := InsertEffect(now, code, url, w);
            && Changed(now, after) == (if code !in now && (w.Fine? || w.AckLost?) then {code} else {})
            && (Changed(now, after) == {} <==> after == now)
            && (InsertResult(now, code, w).CodeExists? ==> after == now)
            && (InsertResult(now, code, w).Stored? ==> Changed(now, after) == {code})
  {
    var after := InsertEffect(now, code, url, w);
    if after != now {
      assert Changed(now, after) == {code};
    } else {
      assert Changed(now, after) == {};
    }
  }

  /** A collision is safe to continue from, since it changed nothing. */
  lemma CollisionContinues(i: nat, rows: Rows, url: string, codes: seq<Option<string>>, weather: seq<Weather>,
                           others: (nat, Rows) -> Rows)
    requires |codes| == |weather| == MAX_CREATE_RETRIES && i < MAX_CREATE_RETRIES && codes[i].Some?
    requires InsertResult(others(i, rows), codes[i].value, weather[i]).CodeExists?
    ensures Attempts(i, rows, url, codes, weather, others)
         == Attempts(i + 1, others(i, rows), url, codes, weather, others)
  {
    var now := others(i, rows);
    InsertWrites(now, codes[i].value, url, weather[i]);
    var rest := Attempts(i + 1, now, url, codes, weather, others);
    assert multiset{} + rest.written == rest.written;
  }

  /**
   * However the other requests interleave, one call changes at most one row over all its attempts:
   * the one it answers with, or one whose answer was lost.
   */
  lemma {:induction false} AtMostOneRow(i: nat, rows: Rows, url: string, codes: seq<Option<string>>,
                                        weather: seq<Weather>, others: (nat, Rows) -> Rows)
    requires |codes| == |weather| == MAX_CREATE_RETRIES
    ensures var o := Attempts(i, rows, url, codes, weather, others);
            && |o.written| <= 1
            && (o.result.Created? ==> o.written == multiset{o.result.code})
            && (o.written != multiset{} && !o.result.Created? ==> o.result == PersistFailed(StoreError) && AckLost in weather)
    decreases MAX_CREATE_RETRIES - i
  {
    if i < MAX_CREATE_RETRIES && codes[i].Some? {
      var now := others(i, rows);
      InsertWrites(now, codes[i].value, url, weather[i]);
      if InsertResult(now, codes[i].value, weather[i]).CodeExists? {
        CollisionContinues(i, rows, url, codes, weather, others);
        AtMostOneRow(i + 1, now, url, codes, weather, others);
      }
    }
  }

  /**
   * The row the call wrote is in the table when it returns, under the URL it was given and a code it
   * drew, and that code was free in the table at its turn.
   */
  lemma {:induction false} InsertedIsStored(i: nat, rows: Rows, url: string, codes: seq<Option<string>>,
                                            weather: seq<Weather>, others: (nat, Rows) -> Rows, c: string)
    requires |codes| == |weather| == MAX_CREATE_RETRIES && c in Attempts(i, rows, url, codes, weather, others).written
    ensures var after := Attempts(i, rows, url, codes, weather, others).rows; c in after && after[c] == url
    ensures exists j :: i <= j < MAX_CREATE_RETRIES && codes[j] == Some(c) && c !in Turn(i, j, rows, others)
    decreases MAX_CREATE_RETRIES - i
  {
    var now := others(i, rows);
    InsertWrites(now, codes[i].value, url, weather[i]);
    if InsertResult(now, codes[i].value, weather[i]).CodeExists? {
      CollisionContinues(i, rows, url, codes, weather, others);
      InsertedIsStored(i + 1, now, url, codes, weather, others, c);
      var j :| i + 1 <= j < MAX_CREATE_RETRIES && codes[j] == Some(c) && c !in Turn(i + 1, j, now, others);
      assert c !in Turn(i, j, rows, others);
    } else {
      assert c !in Turn(i, i, rows, others);
    }
  }

  /** With no one else writing, the call's whole effect on the table is the row it wrote, under a new code. */
  lemma {:induction false} AloneAddsExactly(i: nat, rows: Rows, url: string, codes: seq<Option<string>>,
                                            weather: seq<Weather>, others: (nat, Rows) -> Rows)
    requires |codes| == |weather| == MAX_CREATE_RETRIES && forall n, t :: others(n, t) == t
    ensures var o := Attempts(i, rows, url, codes, weather, others);
            o.rows == rows + (map c | c in o.written :: url) && forall c :: c in o.written ==> c !in rows
    decreases MAX_CREATE_RETRIES - i
  {
    if i < MAX_CREATE_RETRIES && codes[i].Some? {
      InsertWrites(rows, codes[i].value, url, weather[i]);
      if InsertResult(rows, codes[i].value, weather[i]).CodeExists? {
        CollisionContinues(i, rows, url, codes, weather, others);
        AloneAddsExactly(i + 1, rows, url, codes, weather, others);
      }
    }
  }

  /** Attempt j finds its code taken, in the table as the others have made it. */
  ghost predicate Taken(i: nat, j: nat, rows: Rows, codes: seq<Option<string>>, weather: seq<Weather>,
                        others: (nat, Rows) -> Rows)
    requires |codes| == |weather| == MAX_CREATE_RETRIES && i <= j < MAX_CREATE_RETRIES
  {
    codes[j].Some? && weather[j].Fine? && codes[j].value in Turn(i, j, rows, others)
  }

  ghost predicate AllTaken(i: nat, rows: Rows, codes: seq<Option<string>>, weather: seq<Weather>,
                           others: (nat, Rows) -> Rows)
    requires |codes| == |weather| == MAX_CREATE_RETRIES
  {
    forall j :: i <= j < MAX_CREATE_RETRIES ==> Taken(i, j, rows, codes, weather, others)
  }

  lemma AllTakenFrom(i: nat, rows: Rows, codes: seq<Option<string>>, weather: seq<Weather>, others: (nat, Rows) -> Rows)
    requires |codes| == |weather| == MAX_CREATE_RETRIES && i < MAX_CREATE_RETRIES
    ensures AllTaken(i, rows, codes, weather, others) <==>
            Taken(i, i, rows, codes, weather, others) && AllTaken(i + 1, others(i, rows), codes, weather, others)
  {
    var now, next := others(i, rows), i + 1;
    if AllTaken(i, rows, codes, weather, others) {
      forall j | next <= j < MAX_CREATE_RETRIES ensures Taken(next, j, now, codes, weather, others) {
        assert Taken(i, j, rows, codes, weather, others);
      }
    } else if AllTaken(i + 1, now, codes, weather, others) {
      var j :| i <= j < MAX_CREATE_RETRIES && !Taken(i, j, rows, codes, weather, others);
      assert j > i ==> Taken(next, j, now, codes, weather, others);
    }
  }

  /** What the call answers if attempt j, on this table, is the first that does not find its code taken. */
  ghost predicate EndsAt(o: Outcome, j: nat, now: Rows, url: string, codes: seq<Option<string>>, weather: seq<Weather>)
    requires |codes| == |weather| == MAX_CREATE_RETRIES && j < MAX_CREATE_RETRIES
  {
    match codes[j]
    case None => o.result == GenerateFailed && o.rows == now
    case Some(code) =>
      match weather[j]
      case Fine => o.result == Created(code) && code !in now && o.rows == now[code := url]
      case BreakerOpen => o.result == PersistFailed(Unavailable) && o.rows == now
      case Down => o.result == PersistFailed(StoreError) && o.rows == now
      case AckLost => o.result == PersistFailed(StoreError) && o.rows == if code in now then now else now[code := url]
  }

  /**
   * The answer and the table of every call, under any interference: attempts that find their code
   * taken leave no trace, and the first that does not decides.
   */
  lemma {:induction false} FirstFreeDecides(i: nat, j: nat, rows: Rows, url: string, codes: seq<Option<string>>,
                                            weather: seq<Weather>, others: (nat, Rows) -> Rows)
    requires |codes| == |weather| == MAX_CREATE_RETRIES && i <= j < MAX_CREATE_RETRIES
    requires forall m :: i <= m < j ==> Taken(i, m, rows, codes, weather, others)
    requires !Taken(i, j, rows, codes, weather, others)
    ensures EndsAt(Attempts(i, rows, url, codes, weather, others), j, Turn(i, j, rows, others), url, codes, weather)
    decreases j - i
  {
    if i < j {
      assert Taken(i, i, rows, codes, weather, others);
      OneAttempt(i, rows, url, codes, weather, others);
      var next, now := i + 1, others(i, rows);
      forall m | next <= m < j ensures Taken(next, m, now, codes, weather, others) {
        assert Taken(i, m, rows, codes, weather, others);
      }
      FirstFreeDecides(next, j, now, url, codes, weather, others);
    }
  }

  lemma NoneLeft(rows: Rows, url: string, codes: seq<Option<string>>, weather: seq<Weather>, others: (nat, Rows) -> Rows)
    requires |codes| == |weather| == MAX_CREATE_RETRIES
    ensures AllTaken(MAX_CREATE_RETRIES, rows, codes, weather, others)
    ensures Attempts(MAX_CREATE_RETRIES, rows, url, codes, weather, others).result.NoUniqueCode?
  {
  }

  /** An attempt that finds its code taken hands over to the next; any other ends the call. */
  lemma OneAttempt(i: nat, rows: Rows, url: string, codes: seq<Option<string>>, weather: seq<Weather>,
                   others: (nat, Rows) -> Rows)
    requires |codes| == |weather| == MAX_CREATE_RETRIES && i < MAX_CREATE_RETRIES
    ensures var o := Attempts(i, rows, url, codes, weather, others);
            if Taken(i, i, rows, codes, weather, others)
            then o == Attempts(i + 1, others(i, rows), url, codes, weather, others)
            else !o.result.NoUniqueCode?
  {
    if Taken(i, i, rows, codes, weather, others) {
      CollisionContinues(i, rows, url, codes, weather, others);
    }
  }

  /** Whatever the others do, the call gives up exactly when each code it drew was taken at its turn. */
  lemma {:induction false} RunsOutOnlyOnCollisions(i: nat, rows: Rows, url: string, codes: seq<Option<string>>,
                                                   weather: seq<Weather>, others: (nat, Rows) -> Rows)
    requires |codes| == |weather| == MAX_CREATE_RETRIES && i <= MAX_CREATE_RETRIES
    ensures Attempts(i, rows, url, codes, weather, others).result.NoUniqueCode? <==>
            AllTaken(i, rows, codes, weather, others)
    decreases MAX_CREATE_RETRIES - i
  {
    NoneLeft(rows, url, codes, weather, others);
    hide AllTaken, Taken, Attempts;
    if i < MAX_CREATE_RETRIES {
      AllTakenFrom(i, rows, codes, weather, others);
      OneAttempt(i, rows, url, codes, weather, others);
      RunsOutOnlyOnCollisions(i + 1, others(i, rows), url, codes, weather, others);
    }
  }
}
