/**
 * The label and string utilities of the evaluation: decoding token ids into
 * text up to the end-of-sequence id, the space-insensitive character
 * distance, its sum over a batch, and building a label list from a script.
 */
module Utils {
  import opened Wrappers
  import opened Levenshtein
  import opened Text

  // ---------------------------------------------------------------------
  // Character distance
  // ---------------------------------------------------------------------

  /** The number of spaces in `s`. */
  function SpaceCount(s: string): (n: nat)
    ensures n <= |s|
    decreases |s|
  {
    if s == [] then 0 else (if s[0] == ' ' then 1 else 0) + SpaceCount(s[1..])
  }

  /** `s` with every space removed, as `s.replace(' ', '')`. */
  function StripSpaces(s: string): (r: string)
    ensures |r| == |s| - SpaceCount(s)
    decreases |s|
  {
    if s == [] then "" else (if s[0] == ' ' then "" else [s[0]]) + StripSpaces(s[1..])
  }

  /** No space is left. */
  lemma {:induction false} StripSpacesRemovesAll(s: string)
    ensures ' ' !in StripSpaces(s)
    decreases |s|
  {
    if s != [] {
      StripSpacesRemovesAll(s[1..]);
    }
  }

  /** Removing spaces distributes over concatenation. */
  lemma {:induction false} StripSpacesAppend(a: string, b: string)
    ensures StripSpaces(a + b) == StripSpaces(a) + StripSpaces(b)
    decreases |a|
  {
    if a != [] {
      assert (a + b)[1..] == a[1..] + b;
      StripSpacesAppend(a[1..], b);
    } else {
      assert a + b == b;
    }
  }

  /** A string without spaces is left as it is. */
  lemma {:induction false} StripSpacesNoop(s: string)
    requires ' ' !in s
    ensures StripSpaces(s) == s
    decreases |s|
  {
    if s != [] {
      StripSpacesNoop(s[1..]);
    }
  }

  /** Removing spaces a second time changes nothing. */
  lemma StripSpacesIdempotent(s: string)
    ensures StripSpaces(StripSpaces(s)) == StripSpaces(s)
  {
    StripSpacesRemovesAll(s);
    StripSpacesNoop(StripSpaces(s));
  }

  /** Inserting a space anywhere does not change the space-stripped form. */
  lemma SpaceInsertionIgnored(front: string, back: string)
    ensures StripSpaces(front + " " + back) == StripSpaces(front + back)
  {
    StripSpacesAppend(front + " ", back);
    SpaceAfterIgnored(front);
    StripSpacesAppend(front, back);
  }

  lemma SpaceAfterIgnored(s: string)
    ensures StripSpaces(s + " ") == StripSpaces(s)
  {
    assert StripSpaces(" ") == "" by {
      assert " "[1..] == "";
    }
    StripSpacesAppend(s, " ");
  }

  /** A distance between two strings paired with the length of the reference. */
  datatype Distance = Distance(dist: nat, length: nat)

  /**
   * The character distance between a reference `target` and a hypothesis
   * `yHat`: the edit distance between their space-stripped forms, and the
   * number of non-space characters of the reference.
   */
  function CharDistance(target: string, yHat: string): (r: Distance)
    ensures r.length == |target| - SpaceCount(target)
    ensures r.dist == 0 <==> StripSpaces(target) == StripSpaces(yHat)
    ensures r.dist <= Max(|StripSpaces(target)|, |StripSpaces(yHat)|)
  {
    StripSpacesIdempotent(target);
    var target := StripSpaces(target);
    var yHat := StripSpaces(yHat);
    EditDistanceZeroIff(yHat, target);
    Distance(EditDistance(yHat, target), |StripSpaces(target)|)
  }

  /** The distance part does not depend on which string is the reference. */
  lemma CharDistanceSymmetric(a: string, b: string)
    ensures CharDistance(a, b).dist == CharDistance(b, a).dist
  {
    EditDistanceSymmetric(StripSpaces(a), StripSpaces(b));
  }

  /** Both parts depend only on the space-stripped forms of the two strings. */
  lemma CharDistanceIgnoresSpaces(a: string, b: string, a': string, b': string)
    requires StripSpaces(a) == StripSpaces(a') && StripSpaces(b) == StripSpaces(b')
    ensures CharDistance(a, b) == CharDistance(a', b')
  {
  }

  /** In particular, a space inserted into either string changes nothing. */
  lemma CharDistanceSpaceInserted(a1: string, a2: string, b1: string, b2: string)
    ensures CharDistance(a1 + " " + a2, b1 + b2) == CharDistance(a1 + a2, b1 + b2)
    ensures CharDistance(a1 + a2, b1 + " " + b2) == CharDistance(a1 + a2, b1 + b2)
  {
    SpaceInsertionIgnored(a1, a2);
    SpaceInsertionIgnored(b1, b2);
  }

  // ---------------------------------------------------------------------
  // Decoding token ids into text
  // ---------------------------------------------------------------------

  /** The ids of `row` before its first end-of-sequence id. */
  function BeforeEos(row: seq<int>, eosId: int): (p: seq<int>)
    ensures |p| <= |row| && p == row[..|p|]
    ensures eosId !in p
    ensures |p| < |row| ==> row[|p|] == eosId
    decreases |row|
  {
    if row == [] || row[0] == eosId then [] else [row[0]] + BeforeEos(row[1..], eosId)
  }

  predicate AllKnown(ids: seq<int>, id2char: map<int, string>) {
    forall i :: 0 <= i < |ids| ==> ids[i] in id2char
  }

  /** The concatenation of the glyphs of `ids`, in order. */
  function Glyphs(ids: seq<int>, id2char: map<int, string>): string
    requires AllKnown(ids, id2char)
    decreases |ids|
  {
    if ids == [] then "" else id2char[ids[0]] + Glyphs(ids[1..], id2char)
  }

  /** Prepends `text` to a successful decoding; a failure passes through. */
  function Prepend(text: string, r: Result<string>): Result<string> {
    match r
    case Success(s) => Success(text + s)
    case Failure(e) => Failure(e)
  }

  lemma PrependEmpty(r: Result<string>)
    ensures Prepend("", r) == r
  {
    if r.Success? {
      assert "" + r.value == r.value;
    }
  }

  lemma PrependPrepend(s: string, t: string, r: Result<string>)
    ensures Prepend(s, Prepend(t, r)) == Prepend(s + t, r)
  {
    if r.Success? {
      assert s + (t + r.value) == (s + t) + r.value;
    }
  }

  /**
   * What decoding one row yields: the glyphs of the ids up to the first
   * end-of-sequence id, or the lookup failure of the first id before it that
   * has no glyph.
   */
  function Decoded(row: seq<int>, id2char: map<int, string>, eosId: int): Result<string>
    decreases |row|
  {
    if row == [] || row[0] == eosId then Success("")
    else if row[0] !in id2char then Failure(UnknownId(row[0]))
    else Prepend(id2char[row[0]], Decoded(row[1..], id2char, eosId))
  }

  /**
   * Decoding succeeds exactly when every id before the first end-of-sequence
   * id has a glyph, and the text is then the concatenation of those glyphs.
   */
  lemma {:induction false} DecodedMeaning(row: seq<int>, id2char: map<int, string>, eosId: int)
    ensures var p, r := BeforeEos(row, eosId), Decoded(row, id2char, eosId);
            (r.Success? <==> AllKnown(p, id2char)) &&
            (r.Success? ==> r.value == Glyphs(p, id2char))
    decreases |row|
  {
    if row != [] && row[0] != eosId {
      var p, p' := BeforeEos(row, eosId), BeforeEos(row[1..], eosId);
      assert p == [row[0]] + p';
      if row[0] in id2char {
        DecodedMeaning(row[1..], id2char, eosId);
        assert AllKnown(p, id2char) <==> AllKnown(p', id2char);
        assert p[1..] == p';
      }
    }
  }

  /** The number of leading ids of `ids` that have a glyph. */
  function KnownPrefix(ids: seq<int>, id2char: map<int, string>): (n: nat)
    ensures n <= |ids| && AllKnown(ids[..n], id2char)
    ensures n < |ids| ==> ids[n] !in id2char
    decreases |ids|
  {
    if ids == [] || ids[0] !in id2char then 0
    else
      var n := KnownPrefix(ids[1..], id2char);
      assert ids[..n + 1] == [ids[0]] + ids[1..][..n];
      1 + n
  }

  /** A failed decoding names the first id before the end-of-sequence id that has no glyph. */
  lemma {:induction false} DecodedFailure(row: seq<int>, id2char: map<int, string>, eosId: int)
    requires Decoded(row, id2char, eosId).Failure?
    ensures var p := BeforeEos(row, eosId);
            KnownPrefix(p, id2char) < |p| && Decoded(row, id2char, eosId).error == UnknownId(p[KnownPrefix(p, id2char)])
    decreases |row|
  {
    var p, p' := BeforeEos(row, eosId), BeforeEos(row[1..], eosId);
    assert p == [row[0]] + p';
    if row[0] in id2char {
      DecodedFailure(row[1..], id2char, eosId);
      assert p[1..] == p';
    }
  }

  /** Ids after an end-of-sequence id have no effect on the decoding. */
  lemma {:induction false} DecodedIgnoresTail(row: seq<int>, k: nat, tail: seq<int>, id2char: map<int, string>, eosId: int)
    requires k < |row| && row[k] == eosId
    ensures Decoded(row[..k + 1] + tail, id2char, eosId) == Decoded(row, id2char, eosId)
    decreases k
  {
    if k > 0 {
      assert (row[..k + 1] + tail)[1..] == row[1..][..k] + tail;
      DecodedIgnoresTail(row[1..], k - 1, tail, id2char, eosId);
    }
  }

  /**
   * Decodes one row of ids (the 1-D branch of `label_to_string`): appends
   * the glyph of each id until the end-of-sequence id or the end of the row.
   */
  method DecodeRow(labels: seq<int>, id2char: map<int, string>, eosId: int) returns (r: Result<string>)
    ensures r == Decoded(labels, id2char, eosId)
  {
    var sentence := "";
    var i := 0;
    assert labels[0..] == labels;
    PrependEmpty(Decoded(labels, id2char, eosId));
    while i < |labels|
      invariant i <= |labels|
      invariant Decoded(labels, id2char, eosId) == Prepend(sentence, Decoded(labels[i..], id2char, eosId))
    {
      var id := labels[i];
      if id == eosId {
        break;
      }
      if id !in id2char {
        return Failure(UnknownId(id));
      }
      assert labels[i..][1..] == labels[i + 1..];
      PrependPrepend(sentence, id2char[id], Decoded(labels[i + 1..], id2char, eosId));
      sentence := sentence + id2char[id];
      i := i + 1;
    }
    assert sentence + "" == sentence;
    return Success(sentence);
  }

  /**
   * What decoding a batch of rows yields: one text per row, in row order,
   * or the failure of the first row that fails.
   */
  function DecodedRows(rows: seq<seq<int>>, id2char: map<int, string>, eosId: int): (r: Result<seq<string>>)
    ensures r.Success? <==> forall i :: 0 <= i < |rows| ==> Decoded(rows[i], id2char, eosId).Success?
    ensures r.Success? ==> |r.value| == |rows| &&
                           forall i :: 0 <= i < |rows| ==> r.value[i] == Decoded(rows[i], id2char, eosId).value
    ensures r.Failure? ==> exists k :: 0 <= k < |rows| && Decoded(rows[k], id2char, eosId).Failure? &&
                                       r.error == Decoded(rows[k], id2char, eosId).error &&
                                       forall j :: 0 <= j < k ==> Decoded(rows[j], id2char, eosId).Success?
    decreases |rows|
  {
    if rows == [] then Success([])
    else
      match Decoded(rows[0], id2char, eosId)
      case Failure(e) => Failure(e)
      case Success(text) =>
        match DecodedRows(rows[1..], id2char, eosId)
        case Failure(e) =>
          assert forall j :: 1 <= j < |rows| ==> rows[j] == rows[1..][j - 1];
          Failure(e)
        case Success(texts) =>
          assert forall j :: 1 <= j < |rows| ==> rows[j] == rows[1..][j - 1];
          Success([text] + texts)
  }

  /** Decodes every row of a batch (the 2-D branch of `label_to_string`). */
  method DecodeRows(rows: seq<seq<int>>, id2char: map<int, string>, eosId: int) returns (r: Result<seq<string>>)
    ensures r == DecodedRows(rows, id2char, eosId)
  {
    var sentences := [];
    for i := 0 to |rows|
      invariant |sentences| == i
      invariant forall j :: 0 <= j < i ==> Decoded(rows[j], id2char, eosId).Success? &&
                                           sentences[j] == Decoded(rows[j], id2char, eosId).value
    {
      var sentence := DecodeRow(rows[i], id2char, eosId);
      if sentence.Failure? {
        return Failure(sentence.error);
      }
      sentences := sentences + [sentence.value];
    }
    assert sentences == DecodedRows(rows, id2char, eosId).value;
    return Success(sentences);
  }

  /** A label tensor of rank one (one row) or rank two (a batch of rows). */
  datatype Labels = Row(ids: seq<int>) | Rows(rows: seq<seq<int>>)

  /** What `label_to_string` returns: one sentence, or one sentence per row. */
  datatype Sentences = Sentence(text: string) | SentenceList(texts: seq<string>)

  /** Decodes a label tensor according to its rank. */
  method LabelToString(labels: Labels, id2char: map<int, string>, eosId: int) returns (r: Result<Sentences>)
    ensures labels.Row? ==>
              var d := Decoded(labels.ids, id2char, eosId);
              (r.Success? <==> d.Success?) &&
              (r.Success? ==> r.value == Sentence(d.value)) &&
              (r.Failure? ==> r.error == d.error)
    ensures labels.Rows? ==>
              var d := DecodedRows(labels.rows, id2char, eosId);
              (r.Success? <==> d.Success?) &&
              (r.Success? ==> r.value == SentenceList(d.value)) &&
              (r.Failure? ==> r.error == d.error)
  {
    match labels
    case Row(ids) =>
      var sentence := DecodeRow(ids, id2char, eosId);
      r := if sentence.Success? then Success(Sentence(sentence.value)) else Failure(sentence.error);
    case Rows(rows) =>
      var sentences := DecodeRows(rows, id2char, eosId);
      r := if sentences.Success? then Success(SentenceList(sentences.value)) else Failure(sentences.error);
  }

  // ---------------------------------------------------------------------
  // Distance over a batch
  // ---------------------------------------------------------------------

  /** Adds two partial sums; the first failure, in order, wins. */
  function AddResults(a: Result<Distance>, b: Result<Distance>): Result<Distance> {
    match a
    case Failure(e) => Failure(e)
    case Success(x) =>
      match b
      case Failure(e) => Failure(e)
      case Success(y) => Success(Distance(x.dist + y.dist, x.length + y.length))
  }

  lemma AddResultsAssociative(a: Result<Distance>, b: Result<Distance>, c: Result<Distance>)
    ensures AddResults(a, AddResults(b, c)) == AddResults(AddResults(a, b), c)
  {
  }

  /** The sum of a sequence of per-pair results, stated by its last element. */
  function Total(rs: seq<Result<Distance>>): Result<Distance>
    decreases |rs|
  {
    if rs == [] then Success(Distance(0, 0))
    else
      match Total(rs[..|rs| - 1])
      case Failure(e) => Failure(e)
      case Success(acc) =>
        match rs[|rs| - 1]
        case Failure(e) => Failure(e)
        case Success(d) => Success(Distance(acc.dist + d.dist, acc.length + d.length))
  }

  /** The total of a sequence is the sum of the totals of its two parts. */
  lemma {:induction false} TotalAppend(a: seq<Result<Distance>>, b: seq<Result<Distance>>)
    ensures Total(a + b) == AddResults(Total(a), Total(b))
    decreases |b|
  {
    if b == [] {
      assert a + b == a;
    } else {
      var b' := b[..|b| - 1];
      assert (a + b)[..|a + b| - 1] == a + b';
      TotalAppend(a, b');
      AddResultsAssociative(Total(a), Total(b'), b[|b| - 1]);
    }
  }

  /** The total succeeds exactly when every element does, and then sums their counts. */
  lemma {:induction false} TotalSucceeds(rs: seq<Result<Distance>>)
    ensures Total(rs).Success? <==> forall k :: 0 <= k < |rs| ==> rs[k].Success?
    ensures Total(rs).Failure? ==> exists k :: 0 <= k < |rs| && rs[k] == Failure(Total(rs).error)
    decreases |rs|
  {
    if rs != [] {
      var rs' := rs[..|rs| - 1];
      TotalSucceeds(rs');
      if Total(rs').Failure? {
        var k :| 0 <= k < |rs'| && rs'[k] == Failure(Total(rs').error);
        assert rs[k] == rs'[k];
      }
    }
  }

  /** The first failing element, in order, is the failure of the whole sum. */
  lemma TotalFirstFailure(rs: seq<Result<Distance>>, k: nat)
    requires k < |rs| && rs[k].Failure?
    requires forall j :: 0 <= j < k ==> rs[j].Success?
    ensures Total(rs) == rs[k]
  {
    TotalSucceeds(rs[..k]);
    assert rs[..k + 1][..k] == rs[..k];
    TotalFailureSticks(rs, k + 1);
  }

  /** Extending a successful prefix by a successful element adds that element's counts. */
  lemma TotalStep(rs: seq<Result<Distance>>, i: nat, acc: Distance, d: Distance)
    requires i < |rs| && Total(rs[..i]) == Success(acc) && rs[i] == Success(d)
    ensures Total(rs[..i + 1]) == Success(Distance(acc.dist + d.dist, acc.length + d.length))
  {
    assert rs[..i + 1][..i] == rs[..i];
  }

  /** A failure among the first elements is the failure of the whole sequence. */
  lemma TotalFailureSticks(rs: seq<Result<Distance>>, k: nat)
    requires k <= |rs| && Total(rs[..k]).Failure?
    ensures Total(rs) == Total(rs[..k])
  {
    TotalAppend(rs[..k], rs[k..]);
    assert rs[..k] + rs[k..] == rs;
  }

  /** The character distance of one (reference, hypothesis) pair of rows, reference decoded first. */
  function PairDistance(target: seq<int>, yHat: seq<int>, id2char: map<int, string>, eosId: int): Result<Distance> {
    match Decoded(target, id2char, eosId)
    case Failure(e) => Failure(e)
    case Success(script) =>
      match Decoded(yHat, id2char, eosId)
      case Failure(e) => Failure(e)
      case Success(pred) => Success(CharDistance(script, pred))
  }

  function Min(x: nat, y: nat): nat {
    if x <= y then x else y
  }

  /**
   * The per-pair results of the rows zipped in order: as `zip` does, only
   * the first min(#references, #hypotheses) pairs.
   */
  function PairDistances(targets: seq<seq<int>>, yHats: seq<seq<int>>, id2char: map<int, string>, eosId: int)
    : (rs: seq<Result<Distance>>)
    ensures |rs| == Min(|targets|, |yHats|)
    decreases |targets|
  {
    var m := Min(|targets|, |yHats|);
    if m == 0 then []
    else PairDistances(targets[..m - 1], yHats[..m - 1], id2char, eosId) + [PairDistance(targets[m - 1], yHats[m - 1], id2char, eosId)]
  }

  lemma {:induction false} PairDistancesAt(targets: seq<seq<int>>, yHats: seq<seq<int>>, id2char: map<int, string>, eosId: int, k: nat)
    requires k < Min(|targets|, |yHats|)
    ensures PairDistances(targets, yHats, id2char, eosId)[k] == PairDistance(targets[k], yHats[k], id2char, eosId)
    decreases |targets|
  {
    var m := Min(|targets|, |yHats|);
    if k < m - 1 {
      PairDistancesAt(targets[..m - 1], yHats[..m - 1], id2char, eosId, k);
    }
  }

  /** The distance of a batch: the sum over its zipped pairs, the first failure winning. */
  function BatchDistance(targets: seq<seq<int>>, yHats: seq<seq<int>>, id2char: map<int, string>, eosId: int): Result<Distance> {
    Total(PairDistances(targets, yHats, id2char, eosId))
  }

  /**
   * The result for a batch is the sum of the results for its two parts,
   * when the first part pairs every reference with a hypothesis.
   */
  lemma BatchDistanceAdditive(t1: seq<seq<int>>, y1: seq<seq<int>>, t2: seq<seq<int>>, y2: seq<seq<int>>,
                              id2char: map<int, string>, eosId: int)
    requires |t1| == |y1|
    ensures BatchDistance(t1 + t2, y1 + y2, id2char, eosId) ==
            AddResults(BatchDistance(t1, y1, id2char, eosId), BatchDistance(t2, y2, id2char, eosId))
  {
    var p1, p2 := PairDistances(t1, y1, id2char, eosId), PairDistances(t2, y2, id2char, eosId);
    var p := PairDistances(t1 + t2, y1 + y2, id2char, eosId);
    assert p == p1 + p2 by {
      forall k | 0 <= k < |p|
        ensures p[k] == (p1 + p2)[k]
      {
        PairDistancesAt(t1 + t2, y1 + y2, id2char, eosId, k);
        if k < |t1| {
          PairDistancesAt(t1, y1, id2char, eosId, k);
        } else {
          PairDistancesAt(t2, y2, id2char, eosId, k - |t1|);
          assert (t1 + t2)[k] == t2[k - |t1|] && (y1 + y2)[k] == y2[k - |t1|];
        }
      }
    }
    TotalAppend(p1, p2);
  }

  /** A batch succeeds exactly when every zipped pair decodes; a failure is a failing pair's error. */
  lemma BatchDistanceSucceeds(targets: seq<seq<int>>, yHats: seq<seq<int>>, id2char: map<int, string>, eosId: int)
    ensures var r := BatchDistance(targets, yHats, id2char, eosId);
            (r.Success? <==> forall k :: 0 <= k < Min(|targets|, |yHats|) ==> PairDistance(targets[k], yHats[k], id2char, eosId).Success?) &&
            (r.Failure? ==> exists k :: 0 <= k < Min(|targets|, |yHats|) && PairDistance(targets[k], yHats[k], id2char, eosId) == Failure(r.error))
  {
    var rs := PairDistances(targets, yHats, id2char, eosId);
    TotalSucceeds(rs);
    forall k | 0 <= k < |rs|
      ensures rs[k] == PairDistance(targets[k], yHats[k], id2char, eosId)
    {
      PairDistancesAt(targets, yHats, id2char, eosId, k);
    }
  }

  /** The first pair, in order, that fails to decode gives the failure of the batch. */
  lemma BatchDistanceFirstFailure(targets: seq<seq<int>>, yHats: seq<seq<int>>, id2char: map<int, string>, eosId: int, k: nat)
    requires k < Min(|targets|, |yHats|) && PairDistance(targets[k], yHats[k], id2char, eosId).Failure?
    requires forall j :: 0 <= j < k ==> PairDistance(targets[j], yHats[j], id2char, eosId).Success?
    ensures BatchDistance(targets, yHats, id2char, eosId) == PairDistance(targets[k], yHats[k], id2char, eosId)
  {
    var rs := PairDistances(targets, yHats, id2char, eosId);
    forall j | 0 <= j <= k
      ensures rs[j] == PairDistance(targets[j], yHats[j], id2char, eosId)
    {
      PairDistancesAt(targets, yHats, id2char, eosId, j);
    }
    TotalFirstFailure(rs, k);
  }

  /** One iteration of `get_distance`: decodes the `i`-th pair of rows and compares them. */
  method GetPairDistance(targets: seq<seq<int>>, yHats: seq<seq<int>>, i: nat, id2char: map<int, string>, eosId: int)
    returns (r: Result<Distance>)
    requires i < |targets| && i < |yHats|
    ensures r == PairDistances(targets, yHats, id2char, eosId)[i]
  {
    PairDistancesAt(targets, yHats, id2char, eosId, i);
    var script := DecodeRow(targets[i], id2char, eosId);
    if script.Failure? {
      return Failure(script.error);
    }
    var pred := DecodeRow(yHats[i], id2char, eosId);
    if pred.Failure? {
      return Failure(pred.error);
    }
    return Success(CharDistance(script.value, pred.value));
  }

  /**
   * Sums the character distances of the decoded (reference, hypothesis)
   * pairs of a batch (`get_distance`).
   */
  method GetDistance(targets: seq<seq<int>>, yHats: seq<seq<int>>, id2char: map<int, string>, eosId: int)
    returns (r: Result<Distance>)
    ensures r == BatchDistance(targets, yHats, id2char, eosId)
  {
    ghost var rs := PairDistances(targets, yHats, id2char, eosId);
    var totalDist: nat, totalLength: nat := 0, 0;
    var n := Min(|targets|, |yHats|);
    for i := 0 to n
      invariant Total(rs[..i]) == Success(Distance(totalDist, totalLength))
    {
      var pair := GetPairDistance(targets, yHats, i, id2char, eosId);
      if pair.Failure? {
        assert rs[..i + 1][..i] == rs[..i];
        TotalFailureSticks(rs, i + 1);
        return Failure(pair.error);
      }
      TotalStep(rs, i, Distance(totalDist, totalLength), pair.value);
      totalDist := totalDist + pair.value.dist;
      totalLength := totalLength + pair.value.length;
    }
    assert rs[..n] == rs;
    return Success(Distance(totalDist, totalLength));
  }

  // ---------------------------------------------------------------------
  // Labels from scripts
  // ---------------------------------------------------------------------

  /** The key of a label file: its name after the last '/' and before the first '.'. */
  function FileKey(filepath: string): (key: string)
    ensures '/' !in key && '.' !in key
    ensures var name := BaseName(filepath);
            |key| <= |name| && name[..|key|] == key && (|key| < |name| ==> name[|key|] == '.')
  {
    Stem(BaseName(filepath))
  }

  /**
   * What converting the tokens of a script yields: their integer values in
   * order, or the failure of the first token that is not an integer.
   */
  function ParseTokens(tokens: seq<string>): (r: Result<seq<int>>)
    ensures r.Success? <==> forall i :: 0 <= i < |tokens| ==> ParseInt(tokens[i]).Some?
    ensures r.Success? ==> |r.value| == |tokens| &&
                           forall i :: 0 <= i < |tokens| ==> r.value[i] == ParseInt(tokens[i]).value
    ensures r.Failure? ==> exists k :: 0 <= k < |tokens| && ParseInt(tokens[k]).None? &&
                                       r.error == NotAnInteger(tokens[k]) &&
                                       forall j :: 0 <= j < k ==> ParseInt(tokens[j]).Some?
    decreases |tokens|
  {
    if tokens == [] then Success([])
    else
      match ParseInt(tokens[0])
      case None => Failure(NotAnInteger(tokens[0]))
      case Some(n) =>
        match ParseTokens(tokens[1..])
        case Failure(e) =>
          assert forall j :: 1 <= j < |tokens| ==> tokens[j] == tokens[1..][j - 1];
          Failure(e)
        case Success(ns) =>
          assert forall j :: 1 <= j < |tokens| ==> tokens[j] == tokens[1..][j - 1];
          Success([n] + ns)
  }

  /** Converts each token with `int`, in order; the first token that is not an integer fails. */
  method ConvertTokens(tokens: seq<string>) returns (r: Result<seq<int>>)
    ensures r == ParseTokens(tokens)
  {
    var ids := [];
    for i := 0 to |tokens|
      invariant |ids| == i
      invariant forall j :: 0 <= j < i ==> ParseInt(tokens[j]).Some? && ids[j] == ParseInt(tokens[j]).value
    {
      var n := ParseInt(tokens[i]);
      if n.None? {
        ghost var parsed := ParseTokens(tokens);
        assert parsed.Failure?;
        ghost var k :| 0 <= k < |tokens| && ParseInt(tokens[k]).None? && parsed.error == NotAnInteger(tokens[k]) &&
                       forall j :: 0 <= j < k ==> ParseInt(tokens[j]).Some?;
        assert k == i;
        return Failure(NotAnInteger(tokens[i]));
      }
      ids := ids + [n.value];
    }
    ghost var parsed := ParseTokens(tokens);
    assert parsed.Success?;
    assert ids == parsed.value;
    return Success(ids);
  }

  /**
   * Builds the label list of a file (`get_label`): the start-of-sequence id,
   * the integer tokens of the file's script split at single spaces, and the
   * end-of-sequence id.
   */
  method GetLabel(filepath: string, sosId: int, eosId: int, targetDict: Option<map<string, string>>)
    returns (r: Result<seq<int>>)
    ensures targetDict.None? ==> r == Failure(MissingTargetDict)
    ensures targetDict.Some? && FileKey(filepath) !in targetDict.value ==>
              r == Failure(MissingKey(FileKey(filepath)))
    ensures targetDict.Some? && FileKey(filepath) in targetDict.value ==>
              var parsed := ParseTokens(Split(targetDict.value[FileKey(filepath)], ' '));
              (r.Success? <==> parsed.Success?) &&
              (r.Success? ==> r.value == [sosId] + parsed.value + [eosId]) &&
              (r.Failure? ==> r.error == parsed.error)
  {
    if targetDict.None? {
      return Failure(MissingTargetDict);
    }
    var key := FileKey(filepath);
    if key !in targetDict.value {
      return Failure(MissingKey(key));
    }
    var tokens := Split(targetDict.value[key], ' ');
    var ids := ConvertTokens(tokens);
    if ids.Failure? {
      return Failure(ids.error);
    }
    return Success([sosId] + ids.value + [eosId]);
  }

  /** The script that lists `ids` separated by single spaces. */
  function Script(ids: seq<int>): string
    requires |ids| >= 1
  {
    Join(seq(|ids|, i requires 0 <= i < |ids| => Show(ids[i])), ' ')
  }

  /** Converting the tokens of a non-empty script built from `ids` gives `ids` back. */
  lemma ScriptRoundTrip(ids: seq<int>)
    requires |ids| >= 1
    ensures ParseTokens(Split(Script(ids), ' ')) == Success(ids)
  {
    var tokens := seq(|ids|, i requires 0 <= i < |ids| => Show(ids[i]));
    SplitOfJoin(tokens, ' ');
    assert ParseTokens(tokens).value == ids;
  }

  /** An empty script has one empty token, which is not an integer. */
  lemma EmptyScriptRejected()
    ensures ParseTokens(Split("", ' ')) == Failure(NotAnInteger(""))
  {
  }
}
