/** The daemon's ledger: read once or more, rewritten whole, and never written
    again once it has been seen to belong to a newer schema or to be unreadable. */
module StateStore {
  import opened Utf8
  import opened Decimal
  import opened AtomicFile

  const STATE_VERSION: nat := 1
  const VERSION_KEY: string := "\"version\""

  // ---- the version of a file that does not parse ----

  function TrimStart(t: string): string {
    if t != [] && IsWhite(t[0]) then TrimStart(t[1..]) else t
  }

  /** What follows the first `key` in `t`. */
  function AfterFirst(t: string, key: string): Option<string>
    decreases |t|
  {
    if |t| < |key| then None
    else if t[..|key|] == key then Some(t[|key|..])
    else if t == [] then None
    else AfterFirst(t[1..], key)
  }

  function DigitRun(t: string): (run: seq<Byte>)
    ensures AllDigits(run)
  {
    if t != [] && '0' <= t[0] <= '9' then [t[0] as int] + DigitRun(t[1..]) else []
  }

  function ParseU32(run: seq<Byte>): Option<nat>
    requires AllDigits(run)
  {
    if run != [] && Value(run) < 0x1_0000_0000 then Some(Value(run)) else None
  }

  function SniffText(t: string): Option<nat> {
    match AfterFirst(t, VERSION_KEY)
    case None => None
    case Some(after) =>
      var colon := TrimStart(after);
      if colon == [] || colon[0] != ':' then None else ParseU32(DigitRun(TrimStart(colon[1..])))
  }

  function FromUtf8(bytes: Bytes): Option<string> {
    if EncodeAll(Lossy(bytes)) == bytes then Some(Lossy(bytes)) else None
  }

  function SniffVersion(bytes: Bytes): Option<nat> {
    match FromUtf8(bytes)
    case None => None
    case Some(text) => SniffText(text)
  }

  predicate AllWhite(t: string) { forall i :: 0 <= i < |t| ==> IsWhite(t[i]) }

  lemma {:induction false} TrimStartDrops(white: string, t: string)
    requires AllWhite(white) && (t != [] ==> !IsWhite(t[0]))
    ensures TrimStart(white + t) == t
    decreases |white|
  {
    if white == [] {
      assert white + t == t;
    } else {
      assert (white + t)[1..] == white[1..] + t;
      TrimStartDrops(white[1..], t);
    }
  }

  lemma DigitRunStep(digit: Byte, more: string)
    requires IsDigit(digit)
    ensures DigitRun([digit as char] + more) == [digit] + DigitRun(more)
  {
    assert ([digit as char] + more)[1..] == more;
  }

  lemma CharsStep(digits: seq<Byte>, rest: string)
    requires AllDigits(digits) && digits != []
    ensures IsDigit(digits[0]) && AllDigits(digits[1..])
    ensures Chars(digits) + rest == [digits[0] as char] + (Chars(digits[1..]) + rest)
  {
  }

  lemma {:induction false} DigitRunReads(digits: seq<Byte>, rest: string)
    requires AllDigits(digits) && (rest != [] ==> !('0' <= rest[0] <= '9'))
    ensures DigitRun(Chars(digits) + rest) == digits
    decreases |digits|
  {
    if digits == [] {
      assert Chars(digits) + rest == rest;
    } else {
      hide DigitRun, Chars, AllDigits;
      CharsStep(digits, rest);
      DigitRunReads(digits[1..], rest);
      DigitRunStep(digits[0], Chars(digits[1..]) + rest);
      assert digits == [digits[0]] + digits[1..];
    }
  }

  /** `key` begins nowhere in `t` before `n`. */
  predicate NotBefore(t: string, key: string, n: nat) { forall i :: 0 <= i < n ==> !StartsAt(t, key, i) }

  predicate StartsAt(t: string, key: string, i: nat) { i + |key| <= |t| && t[i..i + |key|] == key }

  lemma {:induction false} AfterFirstFinds(before: string, key: string, after: string)
    requires key != [] && NotBefore(before + key + after, key, |before|)
    ensures AfterFirst(before + key + after, key) == Some(after)
    decreases |before|
  {
    var t := before + key + after;
    if before == [] {
      assert t[..|key|] == key && t[|key|..] == after;
    } else {
      assert !StartsAt(t, key, 0);
      assert t[1..] == before[1..] + key + after;
      forall i | 0 <= i < |before| - 1 ensures !StartsAt(t[1..], key, i) {
        assert !StartsAt(t, key, i + 1);
        if i + |key| <= |t[1..]| {
          assert t[1..][i..i + |key|] == t[i + 1..i + 1 + |key|];
        }
      }
      AfterFirstFinds(before[1..], key, after);
    }
  }

  /** However a writer lays the key out, the version is read back as printed,
      unless it does not fit; only the first key counts. */
  lemma SniffReadsPrinted(before: string, white: string, blank: string, n: nat, rest: string)
    requires AllWhite(white) && AllWhite(blank) && (rest != [] ==> !('0' <= rest[0] <= '9'))
    requires var t := before + "\"version\"" + (white + (":" + (blank + (Chars(Digits(n)) + rest))));
      NotBefore(t, "\"version\"", |before|)
    ensures var t := before + "\"version\"" + (white + (":" + (blank + (Chars(Digits(n)) + rest))));
      SniffVersion(EncodeAll(t)) == if n < 0x1_0000_0000 then Some(n) else None
  {
    var number := Chars(Digits(n)) + rest;
    var value := ":" + (blank + number);
    var t := before + VERSION_KEY + (white + value);
    LossyOfEncoded(t);
    AfterFirstFinds(before, VERSION_KEY, white + value);
    TrimStartDrops(white, value);
    assert value[1..] == blank + number;
    assert IsDigit(Digits(n)[0]) && number[0] == Digits(n)[0] as char;
    TrimStartDrops(blank, number);
    DigitRunReads(Digits(n), rest);
    ValueOfDigits(n);
  }

  /** `key` is nowhere in `t`. */
  lemma {:induction false} AfterFirstMisses(t: string, key: string)
    requires key != [] && NotBefore(t, key, |t|)
    ensures AfterFirst(t, key) == None
    decreases |t|
  {
    if |t| >= |key| {
      assert !StartsAt(t, key, 0);
      forall i | 0 <= i < |t[1..]| ensures !StartsAt(t[1..], key, i) {
        assert !StartsAt(t, key, i + 1);
        if i + |key| <= |t[1..]| {
          assert t[1..][i..i + |key|] == t[i + 1..i + 1 + |key|];
        }
      }
      AfterFirstMisses(t[1..], key);
    }
  }

  /** No version is read from bytes that are not text, from text without the key,
      or where the key is not followed by a colon and a number. */
  lemma SniffReadsNothing(bytes: Bytes, before: string, white: string, blank: string, rest: string)
    ensures EncodeAll(Lossy(bytes)) != bytes ==> SniffVersion(bytes) == None
    ensures NotBefore(before, "\"version\"", |before|) ==> SniffVersion(EncodeAll(before)) == None
    ensures var t := before + "\"version\"" + (white + rest);
      NotBefore(t, "\"version\"", |before|) && AllWhite(white) && (rest != [] ==> rest[0] != ':' && !IsWhite(rest[0])) ==>
        SniffVersion(EncodeAll(t)) == None
    ensures var t := before + "\"version\"" + (white + (":" + (blank + rest)));
      (NotBefore(t, "\"version\"", |before|) && AllWhite(white) && AllWhite(blank)
       && (rest != [] ==> !('0' <= rest[0] <= '9') && !IsWhite(rest[0]))) ==> SniffVersion(EncodeAll(t)) == None
  {
    hide IsWhite, EncodeAll, Lossy;
    if NotBefore(before, VERSION_KEY, |before|) {
      LossyOfEncoded(before);
      AfterFirstMisses(before, VERSION_KEY);
    }
    SniffsNoColon(before, white, rest);
    SniffsNoNumber(before, white, blank, rest);
  }

  lemma SniffsNoColon(before: string, white: string, rest: string)
    ensures var t := before + VERSION_KEY + (white + rest);
      NotBefore(t, VERSION_KEY, |before|) && AllWhite(white) && (rest != [] ==> rest[0] != ':' && !IsWhite(rest[0])) ==>
        SniffVersion(EncodeAll(t)) == None
  {
    hide IsWhite, EncodeAll, Lossy;
    var t := before + VERSION_KEY + (white + rest);
    if NotBefore(t, VERSION_KEY, |before|) && AllWhite(white) && (rest != [] ==> rest[0] != ':' && !IsWhite(rest[0])) {
      LossyOfEncoded(t);
      AfterFirstFinds(before, VERSION_KEY, white + rest);
      TrimStartDrops(white, rest);
    }
  }

  lemma ColonIsNotWhite()
    ensures !IsWhite(':')
  {
  }

  lemma SniffsNoNumber(before: string, white: string, blank: string, rest: string)
    ensures var t := before + VERSION_KEY + (white + (":" + (blank + rest)));
      (NotBefore(t, VERSION_KEY, |before|) && AllWhite(white) && AllWhite(blank)
       && (rest != [] ==> !('0' <= rest[0] <= '9') && !IsWhite(rest[0]))) ==> SniffVersion(EncodeAll(t)) == None
  {
    hide IsWhite, EncodeAll, Lossy;
    ColonIsNotWhite();
    var value := ":" + (blank + rest);
    var t := before + VERSION_KEY + (white + value);
    if NotBefore(t, VERSION_KEY, |before|) && AllWhite(white) && AllWhite(blank)
       && (rest != [] ==> !('0' <= rest[0] <= '9') && !IsWhite(rest[0])) {
      LossyOfEncoded(t);
      AfterFirstFinds(before, VERSION_KEY, white + value);
      TrimStartDrops(white, value);
      assert value[1..] == blank + rest;
      TrimStartDrops(blank, rest);
    }
  }

  // ---- the store ----

  datatype Session = Session(id: string, workspace: string, agent: string, title: string, cwd: string, createdAt: nat)

  datatype Rows = Rows(sessions: seq<Session>, workspaces: seq<string>)

  const NO_ROWS := Rows([], [])

  datatype StateFile = StateFile(version: nat, rows: Rows)

  datatype PersistedState = PersistedState(rows: Rows, authoritative: bool)

  /** The JSON printer and parser. */
  datatype Codec = Codec(encode: StateFile -> Bytes, decode: Bytes -> Option<StateFile>)

  class StateStore {
    const path: Name
    const disk: Disk
    const codec: Codec
    var degraded: bool
    var unreadable: bool

    constructor (path: Name, disk: Disk, codec: Codec)
      ensures this.path == path && this.disk == disk && this.codec == codec && !degraded && !unreadable
    {
      this.path := path;
      this.disk := disk;
      this.codec := codec;
      degraded := false;
      unreadable := false;
    }

    predicate ReadOnly()
      reads this
    {
      degraded || unreadable
    }

    function Printed(rows: Rows): Bytes { codec.encode(StateFile(STATE_VERSION, rows)) }

    method Load(readable: bool) returns (state: PersistedState)
      modifies this
      ensures !readable ==> degraded == old(degraded) && unreadable
      ensures readable && Read(disk.fs, path).None? ==> degraded == old(degraded) && unreadable == old(unreadable)
      ensures readable && Read(disk.fs, path).Some? ==>
        match codec.decode(Read(disk.fs, path).value)
        case Some(file) => degraded == (old(degraded) || file.version > 1) && unreadable == old(unreadable)
        case None =>
          var sniffed := SniffVersion(Read(disk.fs, path).value);
          var newer := sniffed.Some? && sniffed.value > 1;
          degraded == (old(degraded) || newer) && unreadable == (old(unreadable) || !newer)
      ensures !state.authoritative <==>
        !readable || (Read(disk.fs, path).Some? && codec.decode(Read(disk.fs, path).value).None?)
      ensures state.rows == if state.authoritative && Read(disk.fs, path).Some?
                            then codec.decode(Read(disk.fs, path).value).value.rows else NO_ROWS
    {
      if !readable {
        unreadable := true;
        return PersistedState(NO_ROWS, false);
      }
      var contents := Read(disk.fs, path);
      if contents.None? {
        return PersistedState(NO_ROWS, true);
      }
      match codec.decode(contents.value) {
        case Some(file) =>
          if file.version > STATE_VERSION {
            degraded := true;
          }
          return PersistedState(file.rows, true);
        case None =>
          var sniffed := SniffVersion(contents.value);
          if sniffed.Some? && sniffed.value > STATE_VERSION {
            degraded := true;
          } else {
            unreadable := true;
          }
          return PersistedState(NO_ROWS, false);
      }
    }

    method Save(rows: Rows, dirMade: bool, fate: Fate, ghost versions: set<Option<Bytes>>) returns (ok: bool)
      requires Safe(disk.fs, path, versions)
      modifies disk
      ensures ReadOnly() ==> ok && disk.fs == old(disk.fs) && disk.trace == old(disk.trace)
      ensures !ReadOnly() ==>
        && (ok <==> dirMade && fate.created && fate.written && fate.flushed && fate.renamed)
        && Read(disk.fs, path) == (if ok then Some(Printed(rows)) else Read(old(disk.fs), path))
        && Safe(disk.fs, path, if !ok then versions else if fate.dirSynced then {Some(Printed(rows))}
                               else versions + {Some(Printed(rows))})
      ensures |old(disk.trace)| <= |disk.trace| && disk.trace[..|old(disk.trace)|] == old(disk.trace)
      ensures SafeSince(disk.trace, |old(disk.trace)|, path, versions + {Some(Printed(rows))})
      ensures Safe(disk.fs, path, versions + {Some(Printed(rows))})
    {
      hide Safe;
      ghost var wider := versions + {Some(Printed(rows))};
      SafeWidens(disk.fs, path, versions, wider);
      if ReadOnly() {
        return true;
      }
      if !dirMade {
        return false;
      }
      ok := WriteAtomic(disk, path, Printed(rows), fate, versions);
      SafeWidens(disk.fs, path, if !ok then versions else if fate.dirSynced then {Some(Printed(rows))} else wider, wider);
    }
  }

  // ---- a store's whole life ----

  datatype Request = Load(readable: bool) | Save(rows: Rows, dirMade: bool, fate: Fate)

  datatype Moment = Moment(readOnly: bool, fs: Fs)

  function Written(codec: Codec, requests: seq<Request>): set<Option<Bytes>> {
    if requests == [] then {}
    else Written(codec, requests[..|requests| - 1]) + WrittenBy(codec, requests[|requests| - 1])
  }

  function Before(start: Moment, moments: seq<Moment>, i: nat): Moment
    requires i <= |moments|
  {
    if i == 0 then start else moments[i - 1]
  }

  /** A load that finds what is not this daemon's to replace: a file it could not
      read, one that does not parse, or one of a newer schema. */
  predicate MetForeign(codec: Codec, path: Name, request: Request, fs: Fs) {
    request.Load? && (!request.readable || (Read(fs, path).Some? && IsForeign(codec, Read(fs, path).value)))
  }

  predicate IsForeign(codec: Codec, bytes: Bytes) {
    codec.decode(bytes).None? || codec.decode(bytes).value.version > STATE_VERSION
  }

  /** The store goes read-only exactly at a load that meets a foreign ledger,
      and from then on nothing on the disk changes. */
  predicate Faithful(codec: Codec, path: Name, requests: seq<Request>, start: Moment, moments: seq<Moment>) {
    && |moments| == |requests|
    && forall i :: 0 <= i < |moments| ==>
         var before := Before(start, moments, i);
         && moments[i].readOnly == (before.readOnly || MetForeign(codec, path, requests[i], before.fs))
         && (before.readOnly || requests[i].Load? ==> moments[i].fs == before.fs)
  }

  function WrittenBy(codec: Codec, request: Request): set<Option<Bytes>> {
    if request.Save? then {Some(codec.encode(StateFile(STATE_VERSION, request.rows)))} else {}
  }

  method Answer(store: StateStore, request: Request, ghost versions: set<Option<Bytes>>) returns (moment: Moment)
    requires Safe(store.disk.fs, store.path, versions)
    modifies store, store.disk
    ensures moment == Moment(store.ReadOnly(), store.disk.fs)
    ensures moment.readOnly ==
      (old(store.ReadOnly()) || MetForeign(store.codec, store.path, request, old(store.disk.fs)))
    ensures old(store.ReadOnly()) || request.Load? ==> moment.fs == old(store.disk.fs)
    ensures |old(store.disk.trace)| <= |store.disk.trace|
    ensures store.disk.trace[..|old(store.disk.trace)|] == old(store.disk.trace)
    ensures SafeSince(store.disk.trace, |old(store.disk.trace)|, store.path, versions + WrittenBy(store.codec, request))
    ensures Safe(store.disk.fs, store.path, versions + WrittenBy(store.codec, request))
  {
    hide Safe;
    match request {
      case Load(readable) =>
        var _ := store.Load(readable);
        assert versions + WrittenBy(store.codec, request) == versions;
      case Save(rows, dirMade, fate) =>
        var _ := store.Save(rows, dirMade, fate, versions);
    }
    moment := Moment(store.ReadOnly(), store.disk.fs);
  }

  method Live(store: StateStore, requests: seq<Request>, ghost versions: set<Option<Bytes>>) returns (moments: seq<Moment>)
    requires Safe(store.disk.fs, store.path, versions)
    modifies store, store.disk
    ensures Faithful(store.codec, store.path, requests, Moment(old(store.ReadOnly()), old(store.disk.fs)), moments)
    ensures |old(store.disk.trace)| <= |store.disk.trace|
    ensures store.disk.trace[..|old(store.disk.trace)|] == old(store.disk.trace)
    ensures SafeSince(store.disk.trace, |old(store.disk.trace)|, store.path, versions + Written(store.codec, requests))
  {
    hide Safe, MetForeign;
    moments := [];
    ghost var all := versions;
    ghost var start := Moment(store.ReadOnly(), store.disk.fs);
    ghost var from := |store.disk.trace|;
    assert requests[..0] == [];
    for n := 0 to |requests|
      invariant all == versions + Written(store.codec, requests[..n])
      invariant Safe(store.disk.fs, store.path, all) && from <= |store.disk.trace|
      invariant store.disk.trace[..from] == old(store.disk.trace)
      invariant SafeSince(store.disk.trace, from, store.path, all)
      invariant Faithful(store.codec, store.path, requests[..n], start, moments)
      invariant Before(start, moments, n) == Moment(store.ReadOnly(), store.disk.fs)
    {
      assert requests[..n + 1] == requests[..n] + [requests[n]] && requests[..n + 1][..n] == requests[..n];
      ghost var wider := all + WrittenBy(store.codec, requests[n]);
      assert wider == versions + Written(store.codec, requests[..n + 1]);
      SinceWidens(store.disk.trace, from, store.path, all, wider);
      ghost var before := store.disk.trace;
      var moment := Answer(store, requests[n], all);
      SinceJoins(before, store.disk.trace, from, store.path, wider);
      FaithfulGrows(store.codec, store.path, requests[..n], start, moments, requests[n], moment);
      moments := moments + [moment];
      all := wider;
    }
    assert requests[..|requests|] == requests;
  }

  /** The daemon's own start: a new store over a disk just mounted. Through all
      that follows, every crash leaves in full the ledger it found or one of those
      it was asked to write. */
  method Serve(mounted: Fs, path: Name, codec: Codec, requests: seq<Request>) returns (disk: Disk, moments: seq<Moment>)
    requires Clean(mounted, path)
    ensures fresh(disk) && disk.trace != [] && disk.trace[0] == mounted
    ensures Faithful(codec, path, requests, Moment(false, mounted), moments)
    ensures forall k, keep, garbage :: 0 <= k < |disk.trace| && |keep| == |disk.trace[k].pending| ==>
      Read(Crash(disk.trace[k], keep, garbage), path) in {Read(mounted, path)} + Written(codec, requests)
  {
    CleanDiskIsSafe(mounted, path);
    hide Safe, Crash, Read, Clean, Faithful;
    disk := new Disk(mounted);
    var store := new StateStore(path, disk, codec);
    ghost var found := {Read(mounted, path)};
    SafeWidens(mounted, path, found, found + Written(codec, requests));
    moments := Live(store, requests, found);
    SinceJoins([mounted], disk.trace, 0, path, found + Written(codec, requests));
    CrashesSince(disk.trace, 0, path, found + Written(codec, requests));
  }

  lemma FaithfulGrows(codec: Codec, path: Name, requests: seq<Request>, start: Moment, moments: seq<Moment>,
                      request: Request, moment: Moment)
    requires Faithful(codec, path, requests, start, moments)
    requires var before := Before(start, moments, |moments|);
      && moment.readOnly == (before.readOnly || MetForeign(codec, path, request, before.fs))
      && (before.readOnly || request.Load? ==> moment.fs == before.fs)
    ensures Faithful(codec, path, requests + [request], start, moments + [moment])
  {
    hide MetForeign;
    forall i | 0 <= i <= |moments| ensures Before(start, moments + [moment], i) == Before(start, moments, i) {
    }
  }

  lemma SinceJoins(before: seq<Fs>, trace: seq<Fs>, from: nat, path: Name, versions: set<Option<Bytes>>)
    requires from <= |before| <= |trace| && trace[..|before|] == before
    requires SafeSince(before, from, path, versions) && SafeSince(trace, |before|, path, versions)
    ensures SafeSince(trace, from, path, versions)
  {
    hide Safe;
    forall k | from <= k < |trace| ensures Safe(trace[k], path, versions) {
      if k < |before| {
        assert trace[k] == before[k];
      }
    }
  }

  /** Once any load has found the ledger unreadable, or read bytes that do not
      parse or parse as a version above 1, no later sequence of loads and saves
      changes a byte. */
  lemma {:induction false} NoByteChangesAfterARefusal(codec: Codec, path: Name, requests: seq<Request>, start: Moment,
                                                      moments: seq<Moment>, i: nat, j: nat)
    requires Faithful(codec, path, requests, start, moments) && i <= j < |moments| && requests[i].Load?
    requires var found := Read(Before(start, moments, i).fs, path);
      || !requests[i].readable
      || (found.Some? && codec.decode(found.value).None?)
      || (found.Some? && codec.decode(found.value).Some? && codec.decode(found.value).value.version > 1)
    ensures moments[j] == Moment(true, Before(start, moments, i).fs)
    decreases j
  {
    assert MetForeign(codec, path, requests[i], Before(start, moments, i).fs);
    FrozenAfter(codec, path, requests, start, moments, i, j);
  }

  lemma {:induction false} FrozenAfter(codec: Codec, path: Name, requests: seq<Request>, start: Moment,
                                       moments: seq<Moment>, i: nat, j: nat)
    requires Faithful(codec, path, requests, start, moments) && i <= j < |moments|
    requires MetForeign(codec, path, requests[i], Before(start, moments, i).fs)
    ensures moments[j] == Moment(true, Before(start, moments, i).fs)
    decreases j
  {
    if i < j {
      FrozenAfter(codec, path, requests, start, moments, i, j - 1);
    }
  }

  /** And nothing else stops the store from writing. */
  lemma {:induction false} OnlyARefusalStopsWriting(codec: Codec, path: Name, requests: seq<Request>, start: Moment,
                                                    moments: seq<Moment>, j: nat) returns (i: nat)
    requires Faithful(codec, path, requests, start, moments) && j < |moments|
    requires moments[j].readOnly && !start.readOnly
    ensures i <= j && requests[i].Load?
    ensures var found := Read(Before(start, moments, i).fs, path);
      || !requests[i].readable
      || (found.Some? && codec.decode(found.value).None?)
      || (found.Some? && codec.decode(found.value).Some? && codec.decode(found.value).value.version > 1)
    decreases j
  {
    i := j;
    if !MetForeign(codec, path, requests[j], Before(start, moments, j).fs) {
      i := OnlyARefusalStopsWriting(codec, path, requests, start, moments, j - 1);
    }
  }

  /** What a save wrote is what a later daemon loads, whatever crash came
      between, if the directory was synced. */
  lemma SavedIsLoaded(codec: Codec, fs: Fs, path: Name, rows: Rows, keep: seq<bool>, garbage: map<nat, Bytes>)
    requires forall file :: codec.decode(codec.encode(file)) == Some(file)
    requires Safe(fs, path, {Some(codec.encode(StateFile(STATE_VERSION, rows)))}) && |keep| == |fs.pending|
    ensures var after := Crash(fs, keep, garbage);
      && Read(after, path).Some?
      && codec.decode(Read(after, path).value) == Some(StateFile(1, rows))
      && !MetForeign(codec, path, Load(true), after)
  {
    CrashLeavesOneVersion(fs, path, {Some(codec.encode(StateFile(STATE_VERSION, rows)))}, keep, garbage);
  }
}
