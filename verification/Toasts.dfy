/** Building toast content from one event or a bucket of events (toast.rs, grapheme.rs). */
module Toasts {
  import opened Model

  const MAX_TITLE_GRAPHEMES: nat := 120
  const MAX_MESSAGE_GRAPHEMES: nat := 500
  const ELLIPSIS: string := "\U{2026}"
  const COUNTED: string := " notifications \U{2014} "
  const LATEST: string := "Latest: "

  function Concat(parts: seq<string>): string {
    if parts == [] then "" else parts[0] + Concat(parts[1..])
  }

  function Truncate(lib: Libraries, text: string, max: nat): string
    requires max >= 1
  {
    var clusters := lib.clusters(text);
    if |clusters| <= max then text else Concat(clusters[..max - 1]) + ELLIPSIS
  }

  function Decimal(n: nat): string {
    if n < 10 then ["0123456789"[n]] else Decimal(n / 10) + ["0123456789"[n % 10]]
  }

  function FromSingle(lib: Libraries, n: Notification): ToastRequest {
    ToastRequest(
      Truncate(lib, n.title, MAX_TITLE_GRAPHEMES),
      Truncate(lib, n.message, MAX_MESSAGE_GRAPHEMES),
      n.secondaryText, n.actionLabel, n.actionUrl, n.image, [n])
  }

  /** `max_by_key`: the last of the elements with the greatest stamp. */
  function Latest(batch: seq<Notification>): (r: Notification)
    requires batch != []
    ensures r in batch
    ensures forall i :: 0 <= i < |batch| ==> batch[i].stamp <= r.stamp
  {
    var last := batch[|batch| - 1];
    if |batch| == 1 then last else
    var best := Latest(batch[..|batch| - 1]);
    if last.stamp >= best.stamp then last else best
  }

  /** The summary toast, given which event of the batch counts as the latest. */
  function Summary(lib: Libraries, batch: seq<Notification>, latest: Notification): ToastRequest {
    ToastRequest(
      Truncate(lib, Decimal(|batch|) + COUNTED + latest.aggregationKey, MAX_TITLE_GRAPHEMES),
      Truncate(lib, LATEST + latest.message, MAX_MESSAGE_GRAPHEMES),
      latest.secondaryText, latest.actionLabel, latest.actionUrl, latest.image, batch)
  }

  function FromBatch(lib: Libraries, batch: seq<Notification>): ToastRequest
    requires batch != []
  {
    if |batch| == 1 then FromSingle(lib, batch[0]) else Summary(lib, batch, Latest(batch))
  }

  /** The fields a reader sees besides title and text come from `n`. */
  predicate ShowsDetailsOf(t: ToastRequest, n: Notification) {
    && t.attribution == n.secondaryText
    && t.actionLabel == n.actionLabel
    && t.actionUrl == n.actionUrl
    && t.image == n.image
  }

  /** Of several with the greatest stamp, the last one counts. */
  lemma {:induction false} LatestIsTheLast(batch: seq<Notification>) returns (i: nat)
    requires batch != []
    ensures i < |batch| && batch[i] == Latest(batch)
    ensures forall j :: i < j < |batch| ==> batch[j].stamp < batch[i].stamp
    decreases |batch|
  {
    i := |batch| - 1;
    if i > 0 && batch[i].stamp < Latest(batch[..i]).stamp {
      i := LatestIsTheLast(batch[..i]);
    }
  }

  // ---------------------------------------------------------------------------
  // What the shown text is

  /** `shown` is `text`, cut to `limit` clusters with the ellipsis counted if it is longer. */
  predicate IsCut(lib: Libraries, text: string, limit: nat, shown: string)
    requires limit >= 1
  {
    if |lib.clusters(text)| <= limit then shown == text
    else shown == Concat(lib.clusters(text)[..limit - 1]) + "\U{2026}"
  }

  /** The toast of `n` alone: its own title, text and details. */
  predicate ShowsAlone(lib: Libraries, n: Notification, t: ToastRequest) {
    && t.sources == [n] && ShowsDetailsOf(t, n)
    && IsCut(lib, n.title, 120, t.title)
    && IsCut(lib, n.message, 500, t.message)
  }

  /** The toast of several events says how many, and the key and the text of `newest`. */
  predicate ShowsSummary(lib: Libraries, newest: Notification, t: ToastRequest) {
    && ShowsDetailsOf(t, newest)
    && IsCut(lib, Decimal(|t.sources|) + " notifications \U{2014} " + newest.aggregationKey, 120, t.title)
    && IsCut(lib, "Latest: " + newest.message, 500, t.message)
  }

  predicate Shows(lib: Libraries, newest: Notification, t: ToastRequest) {
    if |t.sources| == 1 then ShowsAlone(lib, newest, t) else ShowsSummary(lib, newest, t)
  }

  /** Every batch is shown with the title, the text and the details it should have. */
  lemma BatchShowsLatest(lib: Libraries, batch: seq<Notification>)
    requires batch != []
    ensures FromBatch(lib, batch).sources == batch
    ensures ShowsDetailsOf(FromBatch(lib, batch), Latest(batch))
    ensures Shows(lib, Latest(batch), FromBatch(lib, batch))
  {
    if |batch| == 1 {
      assert batch == [batch[0]];
    }
  }

  // ---------------------------------------------------------------------------
  // What the shown text tells

  /** Segmentation loses nothing. */
  ghost predicate Lossless(lib: Libraries) {
    forall text :: Concat(lib.clusters(text)) == text
  }

  lemma {:induction false} ConcatSplits(parts: seq<string>, k: nat)
    requires k <= |parts|
    ensures Concat(parts) == Concat(parts[..k]) + Concat(parts[k..])
  {
    if k == 0 {
      assert parts[..0] == [] && parts[0..] == parts;
    } else {
      ConcatSplits(parts[1..], k - 1);
      assert parts[..k][1..] == parts[1..][..k - 1];
      assert parts[1..][k - 1..] == parts[k..];
    }
  }

  /** Text within the limit is shown whole; longer text is cut to a prefix one cluster short of it. */
  lemma TruncationKeepsPrefix(lib: Libraries, text: string, max: nat)
    requires max >= 1 && Lossless(lib)
    ensures |lib.clusters(text)| <= max ==> Truncate(lib, text, max) == text
    ensures |lib.clusters(text)| > max ==>
      var kept := Concat(lib.clusters(text)[..max - 1]);
      kept <= text && Truncate(lib, text, max) == kept + "\U{2026}"
  {
    var clusters := lib.clusters(text);
    if |clusters| > max {
      ConcatSplits(clusters, max - 1);
      assert text == Concat(clusters[..max - 1]) + Concat(clusters[max - 1..]);
    }
  }

  /** `shown` begins as `text` does and ends in an ellipsis. */
  predicate IsBeginning(text: string, shown: string) {
    shown != [] && shown[|shown| - 1] == '\U{2026}' && shown[..|shown| - 1] <= text
  }

  lemma CutShowsBeginning(lib: Libraries, text: string, limit: nat, shown: string)
    requires limit >= 1 && Lossless(lib) && IsCut(lib, text, limit, shown)
    ensures if |lib.clusters(text)| <= limit then shown == text else IsBeginning(text, shown)
  {
    var clusters := lib.clusters(text);
    if |clusters| > limit {
      ConcatSplits(clusters, limit - 1);
      assert text == Concat(clusters[..limit - 1]) + Concat(clusters[limit - 1..]);
      assert shown[..|shown| - 1] == Concat(clusters[..limit - 1]);
    }
  }

  /** An event on its own is shown under its own title, with its own text. */
  lemma LoneEventIsShown(lib: Libraries, n: Notification, t: ToastRequest)
    requires Lossless(lib) && ShowsAlone(lib, n, t)
    ensures if |lib.clusters(n.title)| <= 120 then t.title == n.title else IsBeginning(n.title, t.title)
    ensures if |lib.clusters(n.message)| <= 500 then t.message == n.message else IsBeginning(n.message, t.message)
  {
    CutShowsBeginning(lib, n.title, 120, t.title);
    CutShowsBeginning(lib, n.message, 500, t.message);
  }

  /** Reads digits from the front, most significant first, on top of `n`. */
  function ReadNumber(s: string, n: nat): (nat, string)
    decreases |s|
  {
    if s != [] && '0' <= s[0] <= '9' then ReadNumber(s[1..], 10 * n + (s[0] as int - '0' as int)) else (n, s)
  }

  lemma ReadsDigit(d: nat, rest: string, n: nat)
    requires d < 10
    ensures ReadNumber(["0123456789"[d]] + rest, n) == ReadNumber(rest, 10 * n + d)
  {
    var s := ["0123456789"[d]] + rest;
    assert s[1..] == rest && s[0] as int == '0' as int + d;
  }

  lemma {:induction false} ReadsDecimal(n: nat, rest: string)
    ensures ReadNumber(Decimal(n) + rest, 0) == ReadNumber(rest, n)
    decreases n
  {
    if n < 10 {
      ReadsDigit(n, rest, 0);
    } else {
      var digit := ["0123456789"[n % 10]];
      ReadsDecimal(n / 10, digit + rest);
      ReadsDigit(n % 10, rest, n / 10);
      assert Decimal(n) + rest == Decimal(n / 10) + (digit + rest);
    }
  }

  /** What a summary title says: how many events, and of which aggregation key. */
  function ReadTitle(title: string): Option<(nat, string)> {
    var (count, rest) := ReadNumber(title, 0);
    var mark := " notifications \U{2014} ";
    if mark <= rest then Some((count, rest[|mark|..])) else None
  }

  /** The summary of several events, when it fits, tells their number, their key and the newest message. */
  lemma SummaryReadsBack(lib: Libraries, batch: seq<Notification>)
    requires |batch| >= 2
    requires |lib.clusters(Decimal(|batch|) + " notifications \U{2014} " + Latest(batch).aggregationKey)| <= 120
    requires |lib.clusters("Latest: " + Latest(batch).message)| <= 500
    ensures ReadTitle(FromBatch(lib, batch).title) == Some((|batch|, Latest(batch).aggregationKey))
    ensures FromBatch(lib, batch).message == "Latest: " + Latest(batch).message
  {
    var key := Latest(batch).aggregationKey;
    var title := FromBatch(lib, batch).title;
    assert title == Decimal(|batch|) + (COUNTED + key);
    ReadsDecimal(|batch|, COUNTED + key);
    assert (COUNTED + key)[0] == ' ';
    assert (COUNTED + key)[|COUNTED|..] == key;
  }
}
