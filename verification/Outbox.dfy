/** The worker's journal of undelivered reports: one file per report, named so
    that the directory listing is the delivery order, drained one pass at a
    time. */
module Outbox {
  import opened Tables
  import opened Delivery

  // ---- Filename order is journal order ----

  /** Python's `<` on strings. */
  predicate LexLess(a: string, b: string) {
    b != "" && (a == "" || a[0] < b[0] || (a[0] == b[0] && LexLess(a[1..], b[1..])))
  }

  function Pow10(k: nat): (p: nat)
    ensures p > 0
  {
    if k == 0 then 1 else 10 * Pow10(k - 1)
  }

  function Digit(d: nat): char
    requires d < 10
  {
    '0' + (d as char)
  }

  function Padded(n: nat, width: nat): (s: string)
    ensures |s| == width
  {
    if width == 0 then "" else Padded(n / 10, width - 1) + [Digit(n % 10)]
  }

  function Decimal(n: nat): (s: string)
    ensures s != ""
  {
    if n < 10 then [Digit(n)] else Decimal(n / 10) + [Digit(n % 10)]
  }

  /** A number zero-padded to at least `width` digits. */
  function Field(n: nat, width: nat): string {
    if n < Pow10(width) then Padded(n, width) else Decimal(n)
  }

  /** `f"{seq:010d}-{rest}"`. */
  function FileName(seq_: nat, rest: string): string {
    Field(seq_, 10) + "-" + rest
  }

  lemma {:induction false} CommonPrefix(p: string, x: string, y: string)
    ensures LexLess(p + x, p + y) == LexLess(x, y)
  {
    if p == "" {
      assert p + x == x && p + y == y;
    } else {
      CommonPrefix(p[1..], x, y);
      assert (p + x)[1..] == p[1..] + x && (p + y)[1..] == p[1..] + y;
    }
  }

  lemma {:induction false} PaddedOrder(a: nat, b: nat, width: nat, x: string, y: string)
    requires a < b < Pow10(width)
    ensures LexLess(Padded(a, width) + x, Padded(b, width) + y)
  {
    var x', y' := [Digit(a % 10)] + x, [Digit(b % 10)] + y;
    assert Padded(a, width) + x == Padded(a / 10, width - 1) + x';
    assert Padded(b, width) + y == Padded(b / 10, width - 1) + y';
    if a / 10 < b / 10 {
      PaddedOrder(a / 10, b / 10, width - 1, x', y');
    } else {
      CommonPrefix(Padded(a / 10, width - 1), x', y');
    }
  }

  /** For sequence numbers below 10^10 the sorted listing is the order of the
      numbers, whatever job and kind follow them. */
  lemma FileOrderIsJournalOrder(a: nat, b: nat, x: string, y: string)
    requires a < Pow10(10) && b < Pow10(10) && a != b
    ensures LexLess(FileName(a, x), FileName(b, y)) <==> a < b
  {
    if a < b {
      PaddedOrder(a, b, 10, "-" + x, "-" + y);
      assert FileName(a, x) == Padded(a, 10) + ("-" + x) && FileName(b, y) == Padded(b, 10) + ("-" + y);
    } else {
      PaddedOrder(b, a, 10, "-" + y, "-" + x);
      assert FileName(a, x) == Padded(a, 10) + ("-" + x) && FileName(b, y) == Padded(b, 10) + ("-" + y);
      LexAsymmetric(FileName(b, y), FileName(a, x));
    }
  }

  lemma {:induction false} LexAsymmetric(a: string, b: string)
    requires LexLess(a, b)
    ensures !LexLess(b, a)
  {
    if a != "" && a[0] == b[0] { LexAsymmetric(a[1..], b[1..]); }
  }

  lemma {:induction false} LexTotal(a: string, b: string)
    requires !LexLess(a, b) && !LexLess(b, a)
    ensures a == b
  {
    if a != "" { LexTotal(a[1..], b[1..]); }
  }

  lemma {:induction false} LexTransitive(a: string, b: string, c: string)
    requires !LexLess(b, a) && !LexLess(c, b)
    ensures !LexLess(c, a)
  {
    if a != "" && b != "" && c != "" && a[0] == b[0] == c[0] { LexTransitive(a[1..], b[1..], c[1..]); }
  }

  lemma {:induction false} LexIrreflexive(a: string)
    ensures !LexLess(a, a)
  {
    if a != "" { LexIrreflexive(a[1..]); }
  }

  lemma {:induction false} PowersStartWithOne(k: nat)
    ensures Decimal(Pow10(k))[0] == '1'
  {
    if k > 0 {
      PowersStartWithOne(k - 1);
      assert Pow10(k) / 10 == Pow10(k - 1) && Pow10(k) >= 10;
    }
  }

  lemma {:induction false} NinesStartWithNine(width: nat)
    requires width > 0
    ensures Padded(Pow10(width) - 1, width)[0] == '9'
  {
    if width > 1 {
      NinesStartWithNine(width - 1);
      assert (Pow10(width) - 1) / 10 == Pow10(width - 1) - 1;
    } else {
      assert Pow10(1) == 10;
    }
  }

  /** At 10^10 the eleventh digit breaks the order. */
  lemma OrderBreaksAtTenDigits(x: string, y: string)
    ensures LexLess(FileName(Pow10(10), x), FileName(Pow10(10) - 1, y))
  {
    OrderBreaks(10, x, y);
  }

  lemma OrderBreaks(width: nat, x: string, y: string)
    requires width > 0
    ensures Pow10(width) >= 1
    ensures LexLess(Field(Pow10(width), width) + "-" + x, Field(Pow10(width) - 1, width) + "-" + y)
  {
    PowersStartWithOne(width);
    NinesStartWithNine(width);
  }

  // ---- No two entries share a file name ----

  lemma {:induction false} PaddedIsInjective(a: nat, b: nat, width: nat)
    requires a < Pow10(width) && b < Pow10(width) && Padded(a, width) == Padded(b, width)
    ensures a == b
  {
    if width > 0 {
      var x, y := Padded(a / 10, width - 1), Padded(b / 10, width - 1);
      assert (x + [Digit(a % 10)])[..width - 1] == x && (y + [Digit(b % 10)])[..width - 1] == y;
      assert (x + [Digit(a % 10)])[width - 1] == (y + [Digit(b % 10)])[width - 1];
      PaddedIsInjective(a / 10, b / 10, width - 1);
    }
  }

  lemma {:induction false} DecimalIsInjective(a: nat, b: nat)
    requires Decimal(a) == Decimal(b)
    ensures a == b
  {
    var x, y := Decimal(a), Decimal(b);
    assert x[|x| - 1] == Digit(a % 10) && y[|y| - 1] == Digit(b % 10);
    if a >= 10 && b >= 10 {
      assert x[..|x| - 1] == Decimal(a / 10) && y[..|y| - 1] == Decimal(b / 10);
      DecimalIsInjective(a / 10, b / 10);
    }
  }

  lemma {:induction false} DecimalIsLong(n: nat, k: nat)
    requires n >= Pow10(k)
    ensures |Decimal(n)| > k
  {
    if k > 0 { DecimalIsLong(n / 10, k - 1); }
  }

  lemma {:induction false} NoDashes(n: nat, width: nat)
    ensures '-' !in Padded(n, width) && '-' !in Decimal(n)
    decreases n + width
  {
    if width > 0 { NoDashes(n / 10, width - 1); }
    if n >= 10 { NoDashes(n / 10, 0); }
  }

  lemma SplitAtTheDash(a: string, b: string, x: string, y: string)
    requires '-' !in a && '-' !in b && a + "-" + x == b + "-" + y
    ensures a == b
  {
    var s := a + "-" + x;
    assert forall k | 0 <= k < |a| :: s[k] == a[k] && a[k] != '-';
    assert forall k | 0 <= k < |b| :: s[k] == b[k] && b[k] != '-';
    assert s[|a|] == '-' && s[|b|] == '-';
  }

  lemma FieldIsInjective(a: nat, b: nat, width: nat)
    requires Field(a, width) == Field(b, width)
    ensures a == b
  {
    if a < Pow10(width) && b < Pow10(width) {
      PaddedIsInjective(a, b, width);
    } else if a >= Pow10(width) && b >= Pow10(width) {
      DecimalIsInjective(a, b);
    } else {
      DecimalIsLong(if a < b then b else a, width);
    }
  }

  /** Entries with different numbers have different file names. */
  lemma NamesDiffer(a: nat, b: nat, x: string, y: string)
    requires a != b
    ensures FileName(a, x) != FileName(b, y)
  {
    if FileName(a, x) == FileName(b, y) {
      NoDashes(a, 10);
      NoDashes(b, 10);
      SplitAtTheDash(Field(a, 10), Field(b, 10), x, y);
      FieldIsInjective(a, b, 10);
    }
  }

  // ---- The journal ----

  /** `rest` is the part of the file name after the number: the job and the kind
      of the report. */
  datatype Body = Body(job: JobId, rest: string, attempts: nat, last: int)

  /** The file of entry `e`. */
  function NameOf(journal: map<nat, Body>, e: nat): string
    requires e in journal
  {
    FileName(e, journal[e].rest)
  }

  datatype DrainResult = Empty | Blocked | AuthBlocked

  const POISON_ATTEMPTS: nat := 25
  const POISON_COOLDOWN: int := 600

  /** A report refused too often waits out its cooldown. */
  predicate Parked(b: Body, now: int) {
    b.attempts >= POISON_ATTEMPTS && now - b.last < POISON_COOLDOWN
  }

  /** What one pass meets: the answer to each entry, the clock when the entry is
      looked at and when its attempt is recorded, whether that record could be
      written, and the clock at the end. */
  datatype Pass = Pass(answer: nat -> Answer, now: nat -> int, stamp: nat -> int, rewritten: nat -> bool, end: int)

  /** Nothing of the same job stands before the entry in the listing. */
  predicate FirstOfItsJob(e: nat, journal: map<nat, Body>) {
    e in journal &&
    forall k | k in journal && LexLess(NameOf(journal, k), NameOf(journal, e)) :: journal[k].job != journal[e].job
  }

  /** Nothing of the same job was journaled before the entry. */
  predicate OldestOfItsJob(e: nat, journal: map<nat, Body>) {
    e in journal && forall k | k in journal && k < e :: journal[k].job != journal[e].job
  }

  predicate TenDigits(journal: map<nat, Body>) {
    forall e | e in journal :: e < Pow10(10)
  }

  /** Below 10^10 the two are the same. */
  lemma FirstIsOldest(e: nat, journal: map<nat, Body>)
    requires TenDigits(journal)
    ensures FirstOfItsJob(e, journal) <==> OldestOfItsJob(e, journal)
  {
    if e in journal {
      forall k | k in journal && k != e
        ensures LexLess(NameOf(journal, k), NameOf(journal, e)) <==> k < e
      {
        FileOrderIsJournalOrder(k, e, journal[k].rest, journal[e].rest);
      }
      LexIrreflexive(NameOf(journal, e));
    }
  }

  ghost predicate AuthRefused(sent: set<nat>, p: Pass) {
    exists e :: e in sent && ClassifyError(p.answer(e)).Auth?
  }

  /** What the pass leaves of an entry it sent. */
  function AfterAttempt(b: Body, e: nat, p: Pass): Body {
    if p.rewritten(e) then b.(attempts := b.attempts + 1, last := p.stamp(e)) else b
  }

  lemma {:induction false} LeastExists(journal: map<nat, Body>, s: set<nat>) returns (m: nat)
    requires s != {} && s <= journal.Keys
    ensures m in s && forall k | k in s :: !LexLess(NameOf(journal, k), NameOf(journal, m))
    decreases |s|
  {
    var x :| x in s;
    LexIrreflexive(NameOf(journal, x));
    if s == {x} {
      m := x;
    } else {
      var y := LeastExists(journal, s - {x});
      m := if LexLess(NameOf(journal, x), NameOf(journal, y)) then x else y;
      forall k | k in s ensures !LexLess(NameOf(journal, k), NameOf(journal, m)) {
        if m == x && k != x {
          LexAsymmetric(NameOf(journal, x), NameOf(journal, y));
          LexTransitive(NameOf(journal, x), NameOf(journal, y), NameOf(journal, k));
        }
      }
    }
  }

  /** What a pass that sent `sent` has made of the journal. */
  ghost predicate Drained(start: map<nat, Body>, now: map<nat, Body>, sent: set<nat>, p: Pass) {
    && sent <= start.Keys
    && (forall e | e in start :: e in now <==> !(e in sent && Settles(p.answer(e))))
    && (forall e | e in now :: e in start && now[e] == if e in sent then AfterAttempt(start[e], e, p) else start[e])
  }

  /** A pass that has looked at the first `i` entries of the listing: what it
      left of them belongs to blocked jobs. */
  ghost predicate Behind(now: map<nat, Body>, order: seq<nat>, i: nat, blocked: set<JobId>, sent: set<nat>) {
    && i <= |order|
    && (forall k | i <= k < |order| :: order[k] in now && order[k] !in sent)
    && (forall k | 0 <= k < i && order[k] in now :: now[order[k]].job in blocked)
  }

  predicate Distinct(order: seq<nat>) {
    forall a, b | 0 <= a < b < |order| :: order[a] != order[b]
  }

  /** `sorted(glob(...))`: by file name. */
  predicate Sorted(journal: map<nat, Body>, order: seq<nat>) {
    forall a, b | 0 <= a < b < |order| && order[a] in journal && order[b] in journal ::
      !LexLess(NameOf(journal, order[b]), NameOf(journal, order[a]))
  }

  /** A pass that has looked at `i` entries of the listing. */
  ghost predicate Progress(start: map<nat, Body>, now: map<nat, Body>, order: seq<nat>, i: nat, blocked: set<JobId>,
                           sent: map<nat, map<nat, Body>>, auth: bool, p: Pass)
  {
    && Distinct(order) && Sorted(now, order) && (forall e | e in now :: e in order)
    && Drained(start, now, sent.Keys, p) && Behind(now, order, i, blocked, sent.Keys)
    && (forall e | e in sent :: FirstOfItsJob(e, sent[e]) && sent[e].Keys <= start.Keys)
    && (auth <==> AuthRefused(sent.Keys, p))
  }

  lemma FrontIsFirst(now: map<nat, Body>, order: seq<nat>, i: nat, blocked: set<JobId>, sent: set<nat>)
    requires Sorted(now, order) && (forall e | e in now :: e in order)
    requires Behind(now, order, i, blocked, sent) && i < |order| && now[order[i]].job !in blocked
    ensures FirstOfItsJob(order[i], now)
  {
    forall k | k in now && LexLess(NameOf(now, k), NameOf(now, order[i]))
      ensures now[k].job != now[order[i]].job
    {
      var a :| 0 <= a < |order| && order[a] == k;
      LexIrreflexive(NameOf(now, k));
      assert a < i;
    }
  }

  lemma SentKeepsShape(start: map<nat, Body>, now: map<nat, Body>, order: seq<nat>, i: nat,
                       blocked: set<JobId>, sent: set<nat>, p: Pass)
    requires Distinct(order) && Sorted(now, order)
    requires Drained(start, now, sent, p) && Behind(now, order, i, blocked, sent) && i < |order|
    ensures var e := order[i];
            var now' := if Settles(p.answer(e)) then now - {e} else now[e := AfterAttempt(now[e], e, p)];
            var blocked' := if Settles(p.answer(e)) then blocked else blocked + {now[e].job};
            && Drained(start, now', sent + {e}, p) && Behind(now', order, i + 1, blocked', sent + {e})
            && Sorted(now', order)
  {
    var e := order[i];
    var now' := if Settles(p.answer(e)) then now - {e} else now[e := AfterAttempt(now[e], e, p)];
    assert forall k | k in now' :: k in now && NameOf(now', k) == NameOf(now, k);
  }

  lemma PassedOver(now: map<nat, Body>, order: seq<nat>, i: nat, blocked: set<JobId>, blocked': set<JobId>,
      sent: set<nat>)
    requires Behind(now, order, i, blocked, sent) && i < |order| && blocked <= blocked'
    requires now[order[i]].job in blocked'
    ensures Behind(now, order, i + 1, blocked', sent)
  {
  }

  lemma OneMoreListed(journal: map<nat, Body>, order: seq<nat>, rest: set<nat>, e: nat)
    requires Sorted(journal, order) && Distinct(order) && e in rest && rest <= journal.Keys
    requires forall k :: k in order <==> k in journal && k !in rest
    requires forall k, l | k in order && l in rest :: !LexLess(NameOf(journal, l), NameOf(journal, k))
    ensures Sorted(journal, order + [e]) && Distinct(order + [e])
    ensures forall k :: k in order + [e] <==> k in journal && k !in rest - {e}
  {
    forall a | 0 <= a < |order| ensures order[a] != e { assert order[a] in order; }
    forall a | 0 <= a < |order|
      ensures !LexLess(NameOf(journal, e), NameOf(journal, order[a]))
    {
      assert order[a] in order;
    }
  }

  /** Nothing of the job is left among the first `k` of the listing. */
  predicate NoneBefore(now: map<nat, Body>, order: seq<nat>, k: nat, job: JobId)
    requires k <= |order|
  {
    forall m | 0 <= m < k && order[m] in now :: now[order[m]].job != job
  }

  /** The pass has sent exactly what was due among the first `i` entries. */
  ghost predicate SentWhatWasDue(start: map<nat, Body>, now: map<nat, Body>, order: seq<nat>, i: nat,
                                 blocked: set<JobId>, sent: set<nat>, p: Pass)
  {
    && i <= |order|
    && (forall job :: job in blocked <==> !NoneBefore(now, order, i, job))
    && (forall k | 0 <= k < i ::
          order[k] in start &&
          (order[k] in sent <==>
             !Parked(start[order[k]], p.now(order[k])) && NoneBefore(now, order, k, start[order[k]].job)))
  }

  lemma OneMoreDue(start: map<nat, Body>, now: map<nat, Body>, now': map<nat, Body>, order: seq<nat>, i: nat,
                   blocked: set<JobId>, blocked': set<JobId>, sent: set<nat>, sent': set<nat>, p: Pass)
    requires i < |order| && Distinct(order) && SentWhatWasDue(start, now, order, i, blocked, sent, p)
    requires order[i] in now && order[i] in start && now[order[i]] == start[order[i]]
    requires forall e | e != order[i] :: (e in now <==> e in now') && (e in now ==> now'[e] == now[e])
    requires order[i] in now' ==> now'[order[i]].job == now[order[i]].job
    requires forall e | e != order[i] :: e in sent <==> e in sent'
    requires order[i] in sent' <==> !Parked(start[order[i]], p.now(order[i])) && start[order[i]].job !in blocked
    requires blocked' == if order[i] in now' then blocked + {now[order[i]].job} else blocked
    ensures SentWhatWasDue(start, now', order, i + 1, blocked', sent', p)
  {
    forall job ensures job in blocked' <==> !NoneBefore(now', order, i + 1, job) {
      SameBefore(now, now', order, i, i, job);
      assert NoneBefore(now', order, i + 1, job) <==>
             NoneBefore(now', order, i, job) && (order[i] in now' ==> now'[order[i]].job != job);
    }
    forall k | 0 <= k < i + 1
      ensures order[k] in start
      ensures order[k] in sent' <==>
              !Parked(start[order[k]], p.now(order[k])) && NoneBefore(now', order, k, start[order[k]].job)
    {
      SameBefore(now, now', order, k, i, start[order[k]].job);
    }
  }

  /** Changing a later entry changes nothing before it. */
  lemma SameBefore(now: map<nat, Body>, now': map<nat, Body>, order: seq<nat>, k: nat, i: nat, job: JobId)
    requires k <= i < |order| && Distinct(order)
    requires forall e | e != order[i] :: (e in now <==> e in now') && (e in now ==> now'[e] == now[e])
    ensures NoneBefore(now', order, k, job) == NoneBefore(now, order, k, job)
  {
    assert forall m | 0 <= m < k :: order[m] != order[i];
  }

  /** Not parked, and nothing of its job left before it in the listing. */
  predicate Due(start: map<nat, Body>, now: map<nat, Body>, e: nat, p: Pass)
    requires e in start
  {
    && !Parked(start[e], p.now(e))
    && forall k | k in now && LexLess(NameOf(now, k), NameOf(start, e)) :: now[k].job != start[e].job
  }

  lemma KeptIsCounted(start: map<nat, Body>, now: map<nat, Body>, sent: set<nat>, p: Pass)
    requires Drained(start, now, sent, p)
    ensures forall e | e in now ::
              && e in start && now[e].job == start[e].job && now[e].rest == start[e].rest
              && (e in sent && p.rewritten(e) ==> now[e].attempts == start[e].attempts + 1 && now[e].last == p.stamp(e))
              && (!(e in sent && p.rewritten(e)) ==> now[e] == start[e])
  {
  }

  /** What was due, in terms of the file names. */
  lemma DueByName(start: map<nat, Body>, now: map<nat, Body>, order: seq<nat>, blocked: set<JobId>, sent: set<nat>,
                  p: Pass, e: nat)
    requires SentWhatWasDue(start, now, order, |order|, blocked, sent, p) && e in start && e in order
    requires (forall k | k in now :: k in order && k in start && now[k].rest == start[k].rest)
    requires Sorted(start, order) && Distinct(order)
    ensures e in sent <==> Due(start, now, e, p)
  {
    var i :| 0 <= i < |order| && order[i] == e;
    forall k | k in now
      ensures LexLess(NameOf(now, k), NameOf(start, e)) <==> exists m :: 0 <= m < i && order[m] == k
    {
      var m :| 0 <= m < |order| && order[m] == k;
      ListedBefore(start, order, m, i);
    }
    assert forall m | 0 <= m < i && order[m] in now :: LexLess(NameOf(now, order[m]), NameOf(start, e));
  }

  lemma PassIsOver(start: map<nat, Body>, now: map<nat, Body>, order: seq<nat>, blocked: set<JobId>,
                   sent: map<nat, map<nat, Body>>, auth: bool, p: Pass)
    requires Progress(start, now, order, |order|, blocked, sent, auth, p)
    requires SentWhatWasDue(start, now, order, |order|, blocked, sent.Keys, p)
    requires Sorted(start, order) && forall e :: e in order <==> e in start
    ensures TenDigits(start) ==> forall e | e in sent :: OldestOfItsJob(e, sent[e])
    ensures forall e | e in start :: e in sent <==> Due(start, now, e, p)
  {
    SentInOrder(start, sent);
    KeptIsCounted(start, now, sent.Keys, p);
    forall e | e in start ensures e in sent <==> Due(start, now, e, p) {
      DueByName(start, now, order, blocked, sent.Keys, p, e);
    }
  }

  lemma ListedBefore(journal: map<nat, Body>, order: seq<nat>, m: nat, i: nat)
    requires Sorted(journal, order) && Distinct(order) && m < |order| && i < |order|
    requires order[m] in journal && order[i] in journal
    ensures LexLess(NameOf(journal, order[m]), NameOf(journal, order[i])) <==> m < i
  {
    LexIrreflexive(NameOf(journal, order[m]));
    if m != i { NamesDiffer(order[m], order[i], journal[order[m]].rest, journal[order[i]].rest); }
    if m < i && !LexLess(NameOf(journal, order[m]), NameOf(journal, order[i])) {
      LexTotal(NameOf(journal, order[m]), NameOf(journal, order[i]));
    }
  }

  /** The entry is sent: it leaves the journal, or it stays and blocks its job. */
  lemma SentProgress(start: map<nat, Body>, now: map<nat, Body>, order: seq<nat>, i: nat, blocked: set<JobId>,
                     sent: map<nat, map<nat, Body>>, auth: bool, p: Pass)
    requires Progress(start, now, order, i, blocked, sent, auth, p) && i < |order| && now[order[i]].job !in blocked
    ensures var e := order[i];
            var now' := if Settles(p.answer(e)) then now - {e} else now[e := AfterAttempt(now[e], e, p)];
            var blocked' := if Settles(p.answer(e)) then blocked else blocked + {now[e].job};
            Progress(start, now', order, i + 1, blocked', sent[e := now], auth || ClassifyError(p.answer(e)).Auth?, p)
  {
    var e := order[i];
    OneMoreAnswer(sent.Keys, e, p);
    FrontIsFirst(now, order, i, blocked, sent.Keys);
    SentKeepsShape(start, now, order, i, blocked, sent.Keys, p);
    assert sent[e := now].Keys == sent.Keys + {e};
  }

  lemma SentInOrder(start: map<nat, Body>, sent: map<nat, map<nat, Body>>)
    requires forall e | e in sent :: FirstOfItsJob(e, sent[e]) && sent[e].Keys <= start.Keys
    ensures TenDigits(start) ==> forall e | e in sent :: OldestOfItsJob(e, sent[e])
  {
    if TenDigits(start) {
      forall e | e in sent ensures OldestOfItsJob(e, sent[e]) { FirstIsOldest(e, sent[e]); }
    }
  }

  lemma OneMoreAnswer(sent: set<nat>, e: nat, p: Pass)
    ensures AuthRefused(sent + {e}, p) <==> AuthRefused(sent, p) || ClassifyError(p.answer(e)).Auth?
  {
    assert e in sent + {e};
  }

  class Outbox {
    var entries: map<nat, Body>
    /** Files that do not parse. */
    var torn: set<nat>

    constructor ()
      ensures entries == map[] && torn == {}
    {
      entries, torn := map[], {};
    }

    method NextSeq() returns (next: nat)
      ensures next > 0 && forall e | e in entries.Keys + torn :: e < next
    {
      var top, rest := 0, entries.Keys + torn;
      while rest != {}
        invariant rest <= entries.Keys + torn
        invariant forall e | e in entries.Keys + torn && e !in rest :: e <= top
      {
        var e :| e in rest;
        top := if top < e then e else top;
        rest := rest - {e};
      }
      next := top + 1;
    }

    /** The new entry goes behind everything already journaled. */
    method Append(job: JobId, rest: string) returns (e: nat)
      modifies this`entries
      ensures forall k | k in old(entries) :: k < e
      ensures entries == old(entries)[e := Body(job, rest, 0, 0)]
    {
      e := NextSeq();
      assert forall k | k in entries :: k in entries.Keys + torn;
      entries := entries[e := Body(job, rest, 0, 0)];
    }

    /** All entries in the order of their file names; torn files are set aside,
        except those that cannot even be renamed. */
    method Entries(unmovable: set<nat>) returns (order: seq<nat>)
      modifies this`torn
      ensures torn == old(torn) * unmovable
      ensures Sorted(entries, order) && Distinct(order)
      ensures forall e :: e in order <==> e in entries
    {
      torn := torn * unmovable;
      order := [];
      var rest := entries.Keys;
      while rest != {}
        invariant rest <= entries.Keys && torn == old(torn) * unmovable
        invariant Sorted(entries, order) && Distinct(order)
        invariant forall e :: e in order <==> e in entries && e !in rest
        invariant forall e, k | e in order && k in rest :: !LexLess(NameOf(entries, k), NameOf(entries, e))
      {
        ghost var least := LeastExists(entries, rest);
        var e :| e in rest && forall k | k in rest :: !LexLess(NameOf(entries, k), NameOf(entries, e));
        OneMoreListed(entries, order, rest, e);
        order, rest := order + [e], rest - {e};
      }
    }

    /** One pass. Whatever mix of answers it meets: an entry is sent only when no
        entry of its job is left that the listing has before it, which below 10^10
        is none journaled before it; it leaves the journal exactly when it
        was sent and settled; what is kept is kept; and the pass answers
        `Empty`, which lets the worker claim, only if all that remains is
        parked inside its cooldown. And what is due is sent: every entry that is not
        parked when it is looked at and has nothing of its job left before it. */
    method Drain(p: Pass, unmovable: set<nat>) returns (result: DrainResult, sent: map<nat, map<nat, Body>>)
      modifies this
      ensures forall e | e in sent :: FirstOfItsJob(e, sent[e])
      ensures TenDigits(old(entries)) ==> forall e | e in sent :: OldestOfItsJob(e, sent[e])
      ensures Drained(old(entries), entries, sent.Keys, p)
      ensures forall e | e in old(entries) ::
                e in sent <==>
                  && !(old(entries)[e].attempts >= 25 && p.now(e) - old(entries)[e].last < 600)
                  && forall k | k in entries && LexLess(NameOf(entries, k), NameOf(old(entries), e)) ::
                       entries[k].job != old(entries)[e].job
      // what is kept has its attempt counted when it was sent, and is as it was when not
      ensures forall e | e in entries ::
                && e in old(entries) && entries[e].job == old(entries)[e].job && entries[e].rest == old(entries)[e].rest
                && (e in sent && p.rewritten(e) ==>
                      entries[e].attempts == old(entries)[e].attempts + 1 && entries[e].last == p.stamp(e))
                && (!(e in sent && p.rewritten(e)) ==> entries[e] == old(entries)[e])
      ensures result.Empty? <==>
                || entries == map[]
                || (&& !AuthRefused(sent.Keys, p)
                    && forall e | e in entries :: entries[e].attempts >= 25 && p.end - entries[e].last < 600)
      ensures result.AuthBlocked? <==> entries != map[] && AuthRefused(sent.Keys, p)
      ensures torn == old(torn) * unmovable
    {
      var order := Entries(unmovable);
      var auth;
      sent, auth := SendDue(order, p);
      KeptIsCounted(old(entries), entries, sent.Keys, p);
      if entries == map[] {
        result := Empty;
      } else if auth {
        result := AuthBlocked;
      } else if forall e | e in entries :: Parked(entries[e], p.end) {
        result := Empty;
      } else {
        result := Blocked;
      }
    }

    /** The loop of the pass. */
    method SendDue(order: seq<nat>, p: Pass) returns (sent: map<nat, map<nat, Body>>, auth: bool)
      requires Sorted(entries, order) && Distinct(order) && forall e :: e in order <==> e in entries
      modifies this`entries
      ensures forall e | e in sent :: FirstOfItsJob(e, sent[e])
      ensures TenDigits(old(entries)) ==> forall e | e in sent :: OldestOfItsJob(e, sent[e])
      ensures Drained(old(entries), entries, sent.Keys, p)
      ensures auth <==> AuthRefused(sent.Keys, p)
      ensures forall e | e in old(entries) :: e in sent <==> Due(old(entries), entries, e, p)
    {
      var blocked: set<JobId> := {};
      auth, sent := false, map[];
      var i := 0;
      while i < |order|
        invariant 0 <= i && Progress(old(entries), entries, order, i, blocked, sent, auth, p)
        invariant SentWhatWasDue(old(entries), entries, order, i, blocked, sent.Keys, p)
      {
        blocked, sent, auth := Look(order, i, blocked, sent, auth, p, old(entries));
        i := i + 1;
      }
      PassIsOver(old(entries), entries, order, blocked, sent, auth, p);
    }

    /** The loop body: one entry of the listing. */
    method Look(order: seq<nat>, i: nat, blocked: set<JobId>, sent: map<nat, map<nat, Body>>, auth: bool, p: Pass,
                ghost start: map<nat, Body>)
      returns (blocked': set<JobId>, sent': map<nat, map<nat, Body>>, auth': bool)
      requires i < |order| && Progress(start, entries, order, i, blocked, sent, auth, p)
      requires SentWhatWasDue(start, entries, order, i, blocked, sent.Keys, p)
      modifies this`entries
      ensures Progress(start, entries, order, i + 1, blocked', sent', auth', p)
      ensures SentWhatWasDue(start, entries, order, i + 1, blocked', sent'.Keys, p)
    {
      var e := order[i];
      var b := entries[e];
      blocked', sent', auth' := blocked, sent, auth;
      if b.job in blocked || Parked(b, p.now(e)) {
        PassedOver(entries, order, i, blocked, blocked + {b.job}, sent.Keys);
        blocked' := blocked + {b.job};
      } else {
        SentProgress(start, entries, order, i, blocked, sent, auth, p);
        sent' := sent[e := entries];
        var answer := p.answer(e);
        auth' := auth || ClassifyError(answer).Auth?;
        if Settles(answer) {
          entries := entries - {e};
        } else {
          entries := entries[e := AfterAttempt(b, e, p)];
          blocked' := blocked + {b.job};
        }
      }
      OneMoreDue(start, old(entries), entries, order, i, blocked, blocked', sent.Keys, sent'.Keys, p);
    }
  }
}
