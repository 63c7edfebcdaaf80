/** The image monitor's change-detection pass: load the stored URL -> hash table, walk
    the monitored URLs in order, classify each fetch as new, changed, unchanged or
    failed, update the table in place, and send at most one alert listing the changed
    URLs. The network, the SHA-256 digest and the SMS transport are inputs here. */
module CheckImages {
  import opened Seqs
  import opened Text

  type Url = string
  /** Lower-case hex digest of a response body. */
  type Hash = string
  type Bytes = seq<bv8>

  datatype Option<T> = None | Some(value: T)

  /** The URLs the monitor watches, in the order it checks them. */
  const URLS: seq<Url> := [
    "https://example.com/image1.jpg",
    "https://example.com/image2.jpg",
    "https://example.com/folder/photo.png"
  ]

  /** What one fetch of a URL came to: a response with its status code and body, a
      timeout, another request failure, or any other exception, with its text. */
  datatype Outcome =
    | Responded(status: nat, content: Bytes)
    | TimedOut
    | RequestFailed(detail: string)
    | Crashed(detail: string)

  /** What reading the state file came to. */
  datatype StoredState =
    | Missing
    | Corrupt
    | Parsed(entries: map<Url, Hash>)

  /** The per-URL result of a check. */
  datatype Verdict = New(hash: Hash) | Changed(hash: Hash) | Unchanged | Failed(message: string)

  /** The table, the changed URLs and the error lines after some prefix of the URLs. */
  datatype Summary = Summary(state: map<Url, Hash>, changed: seq<Url>, errors: seq<string>)

  predicate Distinct(urls: seq<Url>) {
    forall i, j :: 0 <= i < j < |urls| ==> urls[i] != urls[j]
  }

  // ---------------------------------------------------------------------------
  // Loading the state file

  /** A missing file and a file that fails to parse both start from an empty table;
      otherwise the parsed table is used as it is. */
  function LoadState(stored: StoredState): (table: map<Url, Hash>)
    ensures stored.Parsed? ==> table == stored.entries
    ensures !stored.Parsed? ==> table == map[]
  {
    match stored
    case Missing => map[]
    case Corrupt => map[]
    case Parsed(entries) => entries
  }

  // ---------------------------------------------------------------------------
  // One URL

  /** Only a response with status 200 counts as a successful fetch. */
  predicate Succeeded(o: Outcome) {
    o.Responded? && o.status == 200
  }

  /** The error text for a failed fetch, one per kind of failure. */
  function ErrorText(o: Outcome): (text: string)
    requires !Succeeded(o)
    // a bad status is named in decimal after a fixed prefix, and reads back as that status
    ensures o.Responded? ==>
      |text| > 19 && text[..19] == "Failed with status " && AllDigits(text[19..])
      && DigitsValue(text[19..]) == o.status
      && (text[19] == '0' ==> text[19..] == "0")
    ensures o.TimedOut? ==> text == "Request timeout"
    ensures o.RequestFailed? ==> text == o.detail
    ensures o.Crashed? ==> text == "Unexpected error: " + o.detail
  {
    match o
    case Responded(status, _) =>
      NatToStringRoundTrip(status);
      var text := "Failed with status " + NatToString(status);
      assert text[19..] == NatToString(status);
      text
    case TimedOut => "Request timeout"
    case RequestFailed(detail) => detail
    case Crashed(detail) => "Unexpected error: " + detail
  }

  /** The line recorded in the error list for a failed fetch. */
  function ErrorEntry(url: Url, o: Outcome): (line: string)
    requires !Succeeded(o)
    ensures |line| >= |url| + 2 && line[..|url|] == url && line[|url|..|url| + 2] == ": "
    ensures line[|url| + 2..] == ErrorText(o)
  {
    url + ": " + ErrorText(o)
  }

  /** Exactly one verdict per fetch: failed when the fetch did not succeed; otherwise
      new, changed or unchanged by comparing the stored hash with the new one. */
  function Classify(state: map<Url, Hash>, url: Url, o: Outcome, digest: Bytes -> Hash): (v: Verdict)
    ensures v.Failed? <==> !Succeeded(o)
    ensures v.New? <==> Succeeded(o) && url !in state
    ensures v.Changed? <==> Succeeded(o) && url in state && state[url] != digest(o.content)
    ensures v.Unchanged? <==> Succeeded(o) && url in state && state[url] == digest(o.content)
    ensures v.New? || v.Changed? ==> v.hash == digest(o.content)
    ensures v.Failed? ==> v.message == ErrorText(o)
  {
    if !Succeeded(o) then Failed(ErrorText(o))
    else
      var h := digest(o.content);
      if url !in state then New(h)
      else if state[url] != h then Changed(h)
      else Unchanged
  }

  /** The effect of checking one URL on the running summary. */
  function Step(s: Summary, url: Url, o: Outcome, digest: Bytes -> Hash): (r: Summary)
    // a failed fetch adds exactly one error line and touches nothing else
    ensures !Succeeded(o) ==> r == s.(errors := s.errors + [ErrorEntry(url, o)])
    // a successful fetch never adds an error line
    ensures Succeeded(o) ==> r.errors == s.errors
    // never seen before, or seen with another hash: listed as changed, hash recorded
    ensures Succeeded(o) && (url !in s.state || s.state[url] != digest(o.content)) ==>
      r.changed == s.changed + [url] && r.state == s.state[url := digest(o.content)]
    // seen with the same hash: nothing changes
    ensures Succeeded(o) && url in s.state && s.state[url] == digest(o.content) ==> r == s
  {
    match Classify(s.state, url, o, digest)
    case New(h) => Summary(s.state[url := h], s.changed + [url], s.errors)
    case Changed(h) => Summary(s.state[url := h], s.changed + [url], s.errors)
    case Unchanged => s
    case Failed(_) => Summary(s.state, s.changed, s.errors + [ErrorEntry(url, o)])
  }

  // ---------------------------------------------------------------------------
  // The whole pass, as a specification

  /** Checking `urls` in order, starting from `start`, with `fetched[i]` the outcome of
      fetching `urls[i]`. Each URL adds at most one line to `changed` or to `errors`. */
  function Scan(start: map<Url, Hash>, urls: seq<Url>, fetched: seq<Outcome>, digest: Bytes -> Hash): (r: Summary)
    requires |fetched| == |urls|
    ensures |r.changed| + |r.errors| <= |urls|
    decreases |urls|
  {
    if urls == [] then Summary(start, [], [])
    else Step(Scan(start, Init(urls), Init(fetched), digest), Last(urls), Last(fetched), digest)
  }

  /** The body of the last successful fetch of `url`, if there was one. */
  function LastContent(urls: seq<Url>, fetched: seq<Outcome>, url: Url): Option<Bytes>
    requires |fetched| == |urls|
    decreases |urls|
  {
    if urls == [] then None
    else if Last(urls) == url && Succeeded(Last(fetched)) then Some(Last(fetched).content)
    else LastContent(Init(urls), Init(fetched), url)
  }

  /** The URLs that were fetched successfully at least once. */
  function FetchedUrls(urls: seq<Url>, fetched: seq<Outcome>): set<Url>
    requires |fetched| == |urls|
  {
    set i | 0 <= i < |urls| && Succeeded(fetched[i]) :: urls[i]
  }

  /** The error lines of the failed fetches, in order. */
  function ErrorLines(urls: seq<Url>, fetched: seq<Outcome>): seq<string>
    requires |fetched| == |urls|
    decreases |urls|
  {
    if urls == [] then []
    else
      ErrorLines(Init(urls), Init(fetched))
      + (if Succeeded(Last(fetched)) then [] else [ErrorEntry(Last(urls), Last(fetched))])
  }

  /** Whether a successful fetch of `url` differs from what `table` records for it. */
  predicate Differs(table: map<Url, Hash>, url: Url, o: Outcome, digest: Bytes -> Hash) {
    Succeeded(o) && (url !in table || table[url] != digest(o.content))
  }

  /** The URLs whose fetch differs from the table as it was loaded, in order. */
  function DiffersFrom(table: map<Url, Hash>, urls: seq<Url>, fetched: seq<Outcome>, digest: Bytes -> Hash): seq<Url>
    requires |fetched| == |urls|
    decreases |urls|
  {
    if urls == [] then []
    else
      DiffersFrom(table, Init(urls), Init(fetched), digest)
      + (if Differs(table, Last(urls), Last(fetched), digest) then [Last(urls)] else [])
  }

  /** `xs` is `ys` with some elements left out, order kept. */
  predicate IsSubsequence<T(==)>(xs: seq<T>, ys: seq<T>)
    decreases |ys|
  {
    if xs == [] then true
    else if ys == [] then false
    else if Last(xs) == Last(ys) then IsSubsequence(Init(xs), Init(ys))
    else IsSubsequence(xs, Init(ys))
  }

  // ---------------------------------------------------------------------------
  // The alert

  const Title: string := "\U{1F514} Image Monitor Alert!"
  const Intro: string := "New or updated images detected at:"

  /** The fixed opening of every alert, ending in a blank line. */
  const Header: string := Title + "\n\n" + Intro + "\n\n"

  /** The lines of the header; it ends with a newline, so the first bullet starts a line. */
  const HeaderLines: seq<string> := [Title, "", Intro, ""]

  function Bullet(url: Url): string {
    "\U{2022} " + url
  }

  function Bullets(urls: seq<Url>): (lines: seq<string>)
    ensures |lines| == |urls|
    ensures forall i :: 0 <= i < |urls| ==> lines[i] == Bullet(urls[i])
  {
    seq(|urls|, i requires 0 <= i < |urls| => Bullet(urls[i]))
  }

  function WarningLine(errorCount: nat): string {
    "\U{26A0}\U{FE0F} " + NatToString(errorCount) + " error(s) occurred during check."
  }

  /** The message sent when some URLs changed: the header, one bullet per changed URL,
      and a note of the error count when there were errors. */
  function Alert(changed: seq<Url>, errorCount: nat): (text: string)
    ensures changed != [] ==> text == JoinLines(AlertLines(changed, errorCount))
  {
    var text := Header + JoinLines(Bullets(changed))
      + (if errorCount > 0 then "\n\n" + WarningLine(errorCount) else "");
    if changed == [] then text
    else
      AlertTextIsJoinedLines(changed, errorCount);
      text
  }

  /** The lines a reader of the alert sees. */
  function AlertLines(changed: seq<Url>, errorCount: nat): seq<string> {
    HeaderLines + Bullets(changed) + (if errorCount > 0 then ["", WarningLine(errorCount)] else [])
  }

  // ---------------------------------------------------------------------------
  // The pass itself

  /** Builds the alert piece by piece, the header first, then the bullets, then the
      error note when there were errors. */
  method ComposeAlert(changed: seq<Url>, errorCount: nat) returns (msg: string)
    ensures msg == Alert(changed, errorCount)
  {
    msg := Header;
    msg := msg + JoinLines(Bullets(changed));
    if errorCount > 0 {
      msg := msg + ("\n\n" + WarningLine(errorCount));
    }
  }

  /** One run: load the table, check every URL in order, then notify once if anything
      changed. `fetched[i]` is what fetching URLS[i] came to, `digest` the content hash.
      Returns the table to be saved, the changed URLs, the error lines and the messages
      handed to the notifier. */
  method CheckUrls(stored: StoredState, fetched: seq<Outcome>, digest: Bytes -> Hash)
    returns (state: map<Url, Hash>, changed: seq<Url>, errors: seq<string>, sent: seq<string>)
    requires |fetched| == |URLS|
    ensures Summary(state, changed, errors) == Scan(LoadState(stored), URLS, fetched, digest)
    ensures changed == DiffersFrom(LoadState(stored), URLS, fetched, digest)
    ensures errors == ErrorLines(URLS, fetched)
    ensures state.Keys == LoadState(stored).Keys + FetchedUrls(URLS, fetched)
    ensures Distinct(changed)
    ensures sent == (if changed == [] then [] else [Alert(changed, |errors|)])
  {
    state := LoadState(stored);
    changed := [];
    errors := [];
    for i := 0 to |URLS|
      invariant Summary(state, changed, errors) == Scan(LoadState(stored), URLS[..i], fetched[..i], digest)
    {
      var url := URLS[i];
      var o := fetched[i];
      ghost var before := Summary(state, changed, errors);
      if !Succeeded(o) {
        errors := errors + [ErrorEntry(url, o)];
      } else {
        var contentHash := digest(o.content);
        if url !in state {
          changed := changed + [url];
          state := state[url := contentHash];
        } else if state[url] != contentHash {
          changed := changed + [url];
          state := state[url := contentHash];
        }
      }
      assert Summary(state, changed, errors) == Step(before, url, o, digest);
      ScanExtend(LoadState(stored), URLS, fetched, digest, i);
    }
    assert URLS[..|URLS|] == URLS;
    assert fetched[..|URLS|] == fetched;
    UrlsDistinct();
    ScanChanged(LoadState(stored), URLS, fetched, digest);
    ScanErrors(LoadState(stored), URLS, fetched, digest);
    ScanKeys(LoadState(stored), URLS, fetched, digest);
    ChangedDistinct(LoadState(stored), URLS, fetched, digest);

    sent := [];
    if changed != [] {
      var msg := ComposeAlert(changed, |errors|);
      sent := sent + [msg];
    }
  }

  // ---------------------------------------------------------------------------
  // Properties of the pass

  /** Checking one more URL is one more step of the pass. */
  lemma ScanExtend(start: map<Url, Hash>, urls: seq<Url>, fetched: seq<Outcome>, digest: Bytes -> Hash, i: nat)
    requires |fetched| == |urls| && i < |urls|
    ensures Scan(start, urls[..i + 1], fetched[..i + 1], digest)
      == Step(Scan(start, urls[..i], fetched[..i], digest), urls[i], fetched[i], digest)
  {
    assert Init(urls[..i + 1]) == urls[..i];
    assert Init(fetched[..i + 1]) == fetched[..i];
  }

  lemma UrlsDistinct()
    ensures Distinct(URLS)
  {
  }

  lemma {:induction false} LastContentAbsent(urls: seq<Url>, fetched: seq<Outcome>, url: Url)
    requires |fetched| == |urls|
    requires url !in urls
    ensures LastContent(urls, fetched, url) == None
    decreases |urls|
  {
    if urls != [] {
      assert Last(urls) in urls;
      LastContentAbsent(Init(urls), Init(fetched), url);
    }
  }

  /** In a list without repeats, the last successful fetch of a URL is its own. */
  lemma {:induction false} LastContentAt(urls: seq<Url>, fetched: seq<Outcome>, i: nat)
    requires |fetched| == |urls| && Distinct(urls)
    requires i < |urls| && Succeeded(fetched[i])
    ensures LastContent(urls, fetched, urls[i]) == Some(fetched[i].content)
    decreases |urls|
  {
    if i < |urls| - 1 {
      LastContentAt(Init(urls), Init(fetched), i);
    }
  }

  /** The final entry of every key: the hash of its last successful fetch if it had one;
      otherwise exactly the starting entry, present or absent. */
  lemma {:induction false} ScanEntry(start: map<Url, Hash>, urls: seq<Url>, fetched: seq<Outcome>, digest: Bytes -> Hash, key: Url)
    requires |fetched| == |urls|
    ensures var table := Scan(start, urls, fetched, digest).state;
      match LastContent(urls, fetched, key)
      case Some(c) => key in table && table[key] == digest(c)
      case None => (key in table <==> key in start) && (key in start ==> table[key] == start[key])
    decreases |urls|
  {
    if urls != [] {
      ScanEntry(start, Init(urls), Init(fetched), digest, key);
    }
  }

  /** The keys after the pass are the starting keys plus the URLs fetched successfully. */
  lemma {:induction false} ScanKeys(start: map<Url, Hash>, urls: seq<Url>, fetched: seq<Outcome>, digest: Bytes -> Hash)
    requires |fetched| == |urls|
    ensures Scan(start, urls, fetched, digest).state.Keys == start.Keys + FetchedUrls(urls, fetched)
    decreases |urls|
  {
    if urls != [] {
      ScanKeys(start, Init(urls), Init(fetched), digest);
      FetchedUrlsSnoc(urls, fetched);
    }
  }

  lemma FetchedUrlsSnoc(urls: seq<Url>, fetched: seq<Outcome>)
    requires |fetched| == |urls| && urls != []
    ensures FetchedUrls(urls, fetched) ==
      FetchedUrls(Init(urls), Init(fetched)) + (if Succeeded(Last(fetched)) then {Last(urls)} else {})
  {
  }

  /** The error lines do not depend on the table: one per failed fetch, in order. */
  lemma {:induction false} ScanErrors(start: map<Url, Hash>, urls: seq<Url>, fetched: seq<Outcome>, digest: Bytes -> Hash)
    requires |fetched| == |urls|
    ensures Scan(start, urls, fetched, digest).errors == ErrorLines(urls, fetched)
    decreases |urls|
  {
    if urls != [] {
      ScanErrors(start, Init(urls), Init(fetched), digest);
    }
  }

  /** With no URL listed twice, the changed URLs are exactly those whose fetch differs
      from the starting table, in list order. */
  lemma {:induction false} ScanChanged(start: map<Url, Hash>, urls: seq<Url>, fetched: seq<Outcome>, digest: Bytes -> Hash)
    requires |fetched| == |urls| && Distinct(urls)
    ensures Scan(start, urls, fetched, digest).changed == DiffersFrom(start, urls, fetched, digest)
    decreases |urls|
  {
    if urls != [] {
      var n := |urls| - 1;
      ScanChanged(start, Init(urls), Init(fetched), digest);
      assert urls[n] !in Init(urls);
      LastContentAbsent(Init(urls), Init(fetched), urls[n]);
      ScanEntry(start, Init(urls), Init(fetched), digest, urls[n]);
    }
  }

  /** With no URL listed twice, no URL is reported as changed twice. */
  lemma {:induction false} ChangedDistinct(start: map<Url, Hash>, urls: seq<Url>, fetched: seq<Outcome>, digest: Bytes -> Hash)
    requires |fetched| == |urls| && Distinct(urls)
    ensures Distinct(Scan(start, urls, fetched, digest).changed)
    ensures forall u :: u in Scan(start, urls, fetched, digest).changed ==> u in urls
    decreases |urls|
  {
    if urls != [] {
      ChangedDistinct(start, Init(urls), Init(fetched), digest);
      assert Last(urls) !in Init(urls);
      forall u | u in Init(urls) ensures u in urls {
        var k :| 0 <= k < |Init(urls)| && Init(urls)[k] == u;
        assert urls[k] == u;
      }
    }
  }

  lemma {:induction false} SubsequenceSnoc<T>(xs: seq<T>, ys: seq<T>, y: T)
    requires IsSubsequence(xs, ys)
    ensures IsSubsequence(xs, ys + [y])
    decreases |ys|, 1
  {
    assert Init(ys + [y]) == ys;
    if xs != [] && Last(xs) == y {
      SubsequenceInit(xs, ys);
    }
  }

  lemma {:induction false} SubsequenceInit<T>(xs: seq<T>, ys: seq<T>)
    requires xs != [] && IsSubsequence(xs, ys)
    ensures IsSubsequence(Init(xs), ys)
    decreases |ys|, 0
  {
    assert ys == Init(ys) + [Last(ys)];
    if Last(xs) == Last(ys) {
      SubsequenceSnoc(Init(xs), Init(ys), Last(ys));
    } else {
      SubsequenceInit(xs, Init(ys));
      SubsequenceSnoc(Init(xs), Init(ys), Last(ys));
    }
  }

  lemma SubsequenceSnocBoth<T>(xs: seq<T>, ys: seq<T>, y: T)
    requires IsSubsequence(xs, ys)
    ensures IsSubsequence(xs + [y], ys + [y])
  {
    assert Last(xs + [y]) == y && Init(xs + [y]) == xs;
    assert Last(ys + [y]) == y && Init(ys + [y]) == ys;
  }

  /** The changed URLs appear in the order of the URL list, whatever the list holds. */
  lemma {:induction false} ChangedInOrder(start: map<Url, Hash>, urls: seq<Url>, fetched: seq<Outcome>, digest: Bytes -> Hash)
    requires |fetched| == |urls|
    ensures IsSubsequence(Scan(start, urls, fetched, digest).changed, urls)
    decreases |urls|
  {
    if urls != [] {
      var prev := Scan(start, Init(urls), Init(fetched), digest);
      var url, o := Last(urls), Last(fetched);
      ChangedInOrder(start, Init(urls), Init(fetched), digest);
      assert Scan(start, urls, fetched, digest) == Step(prev, url, o, digest);
      assert Init(urls) + [url] == urls;
      if Succeeded(o) && (url !in prev.state || prev.state[url] != digest(o.content)) {
        SubsequenceSnocBoth(prev.changed, Init(urls), url);
      } else {
        SubsequenceSnoc(prev.changed, Init(urls), url);
      }
    }
  }

  /** Re-running on a table that already holds the hash of every successful fetch
      changes nothing and reports only the failed fetches. */
  lemma {:induction false} RerunIsQuiet(table: map<Url, Hash>, urls: seq<Url>, fetched: seq<Outcome>, digest: Bytes -> Hash)
    requires |fetched| == |urls|
    requires forall i :: 0 <= i < |urls| && Succeeded(fetched[i]) ==>
      urls[i] in table && table[urls[i]] == digest(fetched[i].content)
    ensures Scan(table, urls, fetched, digest) == Summary(table, [], ErrorLines(urls, fetched))
    decreases |urls|
  {
    if urls != [] {
      RerunIsQuiet(table, Init(urls), Init(fetched), digest);
    }
  }

  /** Two runs in a row over the same responses: the second finds no change, keeps the
      table, and reports the same errors as the first. */
  lemma SecondRunFindsNoChange(start: map<Url, Hash>, urls: seq<Url>, fetched: seq<Outcome>, digest: Bytes -> Hash)
    requires |fetched| == |urls| && Distinct(urls)
    ensures var first := Scan(start, urls, fetched, digest);
      Scan(first.state, urls, fetched, digest) == Summary(first.state, [], first.errors)
  {
    var first := Scan(start, urls, fetched, digest);
    forall i | 0 <= i < |urls| && Succeeded(fetched[i])
      ensures urls[i] in first.state && first.state[urls[i]] == digest(fetched[i].content)
    {
      LastContentAt(urls, fetched, i);
      ScanEntry(start, urls, fetched, digest, urls[i]);
    }
    RerunIsQuiet(first.state, urls, fetched, digest);
    ScanErrors(start, urls, fetched, digest);
  }

  /** From an empty table, a URL ends up in the changed list exactly when some fetch of
      it succeeded. */
  lemma {:induction false} ChangedFromEmpty(urls: seq<Url>, fetched: seq<Outcome>, digest: Bytes -> Hash, u: Url)
    requires |fetched| == |urls|
    ensures u in Scan(map[], urls, fetched, digest).changed <==> u in FetchedUrls(urls, fetched)
    decreases |urls|
  {
    if urls != [] {
      ChangedFromEmpty(Init(urls), Init(fetched), digest, u);
      ScanKeys(map[], Init(urls), Init(fetched), digest);
      FetchedUrlsSnoc(urls, fetched);
    }
  }

  /** A missing or unreadable state file means a fresh start: every URL fetched
      successfully is reported as changed and recorded, and nothing else is. */
  lemma FreshStartReportsAll(stored: StoredState, urls: seq<Url>, fetched: seq<Outcome>, digest: Bytes -> Hash)
    requires |fetched| == |urls|
    requires stored.Missing? || stored.Corrupt?
    ensures var r := Scan(LoadState(stored), urls, fetched, digest);
      r.state.Keys == FetchedUrls(urls, fetched)
      && forall u :: u in r.changed <==> u in FetchedUrls(urls, fetched)
  {
    ScanKeys(LoadState(stored), urls, fetched, digest);
    forall u ensures u in Scan(LoadState(stored), urls, fetched, digest).changed <==> u in FetchedUrls(urls, fetched) {
      ChangedFromEmpty(urls, fetched, digest, u);
    }
  }

  // ---------------------------------------------------------------------------
  // Properties of the alert

  lemma HeaderIsLines()
    ensures Header == JoinLines(HeaderLines) + "\n"
  {
    assert HeaderLines[1..] == ["", Intro, ""];
    assert HeaderLines[1..][1..] == [Intro, ""];
    assert HeaderLines[1..][1..][1..] == [""];
    assert JoinLines([Intro, ""]) == Intro + "\n";
    assert JoinLines(["", Intro, ""]) == "\n" + Intro + "\n";
    assert JoinLines(HeaderLines) == Title + "\n" + "\n" + Intro + "\n";
  }

  /** The text `Alert` builds is its lines joined by newlines. */
  lemma AlertTextIsJoinedLines(changed: seq<Url>, errorCount: nat)
    requires changed != []
    ensures Header + JoinLines(Bullets(changed))
      + (if errorCount > 0 then "\n\n" + WarningLine(errorCount) else "")
      == JoinLines(AlertLines(changed, errorCount))
  {
    var head := HeaderLines + Bullets(changed);
    HeaderIsLines();
    JoinAppend(HeaderLines, Bullets(changed));
    assert Header + JoinLines(Bullets(changed)) == JoinLines(head);
    if errorCount > 0 {
      JoinBlankThen(head, WarningLine(errorCount));
      assert AlertLines(changed, errorCount) == head + ["", WarningLine(errorCount)];
    } else {
      assert AlertLines(changed, errorCount) == head;
    }
  }

  /** Appending a blank line and then `last` adds two newlines and `last`. */
  lemma JoinBlankThen(lines: seq<string>, last: string)
    requires lines != []
    ensures JoinLines(lines + ["", last]) == JoinLines(lines) + ("\n\n" + last)
  {
    var tail := ["", last];
    assert tail[1..] == [last];
    assert JoinLines(tail) == "\n" + last;
    JoinAppend(lines, tail);
    assert "\n\n" + last == "\n" + ("\n" + last);
  }

  lemma HeaderLinesHaveNoNewline()
    ensures forall i :: 0 <= i < |HeaderLines| ==> NoNewline(HeaderLines[i])
  {
    assert NoNewline(Title) && NoNewline(Intro) && NoNewline("");
  }

  lemma WarningLineHasNoNewline(errorCount: nat)
    ensures NoNewline(WarningLine(errorCount))
  {
    var digits := NatToString(errorCount);
    assert forall k :: 0 <= k < |digits| ==> digits[k] != '\n';
    assert NoNewline("\U{26A0}\U{FE0F} ") && NoNewline(" error(s) occurred during check.");
  }

  lemma AlertLinesHaveNoNewline(changed: seq<Url>, errorCount: nat)
    requires forall i :: 0 <= i < |changed| ==> NoNewline(changed[i])
    ensures forall i :: 0 <= i < |AlertLines(changed, errorCount)| ==> NoNewline(AlertLines(changed, errorCount)[i])
  {
    // Without this body the proof runs out of resource on some seeds.
    HeaderLinesHaveNoNewline();
    WarningLineHasNoNewline(errorCount);
    var lines := AlertLines(changed, errorCount);
    var h := |HeaderLines|;
    forall i | 0 <= i < |lines| ensures NoNewline(lines[i]) {
      if i < h {
        assert lines[i] == HeaderLines[i];
      } else if i < h + |changed| {
        assert lines[i] == Bullet(changed[i - h]);
      } else if i == h + |changed| + 1 {
        assert lines[i] == WarningLine(errorCount);
      }
    }
  }

  /** Read line by line, the alert is the header, then one bullet per changed URL in
      order, then (only when there were errors) a blank line and the error count. */
  lemma AlertReadsBack(changed: seq<Url>, errorCount: nat)
    requires changed != []
    requires forall i :: 0 <= i < |changed| ==> NoNewline(changed[i])
    ensures SplitLines(Alert(changed, errorCount)) == AlertLines(changed, errorCount)
  {
    AlertLinesHaveNoNewline(changed, errorCount);
    SplitJoin(AlertLines(changed, errorCount));
  }
}
