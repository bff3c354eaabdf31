/** Transcript normalisation for submission: the manifest record rewrite
    (`read_manifest`), the fixed chain of string rewrites applied to every
    transcript (`norm_text`), and the canonicalisation of filler words by the
    three regular expressions of the scoring transform. */
module Normalize {

  import opened Common
  import opened TextOps

  // ---------------------------------------------------------------- fillers

  /** One filler pattern: the whole tokens it matches and the canonical
      spelling it writes. */
  datatype Filler = Filler(forms: set<string>, canon: string)

  const HmFiller := Filler({"hm", "hmm", "mhm", "mmh", "mmm"}, "hmmm")
  const UmFiller := Filler({"uhm", "um", "umm", "umh", "ummh"}, "ummm")
  const UhFiller := Filler({"uh", "uhh"}, "uhhh")

  /** One space-delimited token under one pattern. A match must start the
      text or follow a space, and end the text or precede a space; the
      pattern's `$` also matches just before a final newline, so the last
      token may carry that newline. */
  function SubstToken(f: Filler, t: string, isLast: bool): string
  {
    if t in f.forms then f.canon
    else if isLast && |t| > 0 && t[|t| - 1] == '\n' && t[..|t| - 1] in f.forms then f.canon + "\n"
    else t
  }

  function SubstTokens(f: Filler, ts: seq<string>): seq<string>
  {
    seq(|ts|, k requires 0 <= k < |ts| => SubstToken(f, ts[k], k == |ts| - 1))
  }

  /** `re.sub(pattern, canon, s)` for one filler pattern: the tokens between
      spaces are rewritten one by one, the spaces stay. */
  function SubstituteFiller(f: Filler, s: string): string
  {
    Join(SubstTokens(f, Split(s, ' ')), ' ')
  }

  /** The three substitutions in the order the transform lists them. */
  function Fillers(s: string): string
  {
    SubstituteFiller(UhFiller, SubstituteFiller(UmFiller, SubstituteFiller(HmFiller, s)))
  }

  /** Reference definition: a one-pass rewrite of each token to its
      canonical spelling. */
  function CanonWord(w: string): Option<string>
  {
    if w in HmFiller.forms then Some(HmFiller.canon)
    else if w in UmFiller.forms then Some(UmFiller.canon)
    else if w in UhFiller.forms then Some(UhFiller.canon)
    else None
  }

  function CanonToken(t: string, isLast: bool): string
  {
    if CanonWord(t).Some? then CanonWord(t).value
    else if isLast && |t| > 0 && t[|t| - 1] == '\n' && CanonWord(t[..|t| - 1]).Some? then
      CanonWord(t[..|t| - 1]).value + "\n"
    else t
  }

  function CanonTokens(ts: seq<string>): seq<string>
  {
    seq(|ts|, k requires 0 <= k < |ts| => CanonToken(ts[k], k == |ts| - 1))
  }

  /** A pattern whose canonical spelling it does not match, and whose
      spellings hold neither a space nor a newline. */
  predicate Regular(f: Filler)
  {
    && f.canon !in f.forms
    && ' ' !in f.canon && '\n' !in f.canon
    && forall w :: w in f.forms ==> '\n' !in w && ' ' !in w
  }

  /** Two patterns that match no common token and neither matches the other's
      canonical spelling. */
  predicate Apart(a: Filler, b: Filler)
  {
    a.forms !! b.forms && a.canon !in b.forms && b.canon !in a.forms
  }

  lemma FillersRegular()
    ensures Regular(HmFiller) && Regular(UmFiller) && Regular(UhFiller)
  {
  }

  lemma FillersApart()
    ensures Apart(HmFiller, UmFiller) && Apart(HmFiller, UhFiller) && Apart(UmFiller, UhFiller)
  {
  }

  lemma CanonNewline(c: string)
    ensures |c + "\n"| > 0 && (c + "\n")[|c + "\n"| - 1] == '\n' && (c + "\n")[..|c + "\n"| - 1] == c
  {
  }

  /** A substituted token holds a space only if the token did. */
  lemma SubstTokenNoSpace(f: Filler, t: string, isLast: bool)
    requires Regular(f) && ' ' !in t
    ensures ' ' !in SubstToken(f, t, isLast)
  {
  }

  /** Substitution rewrites the tokens of the text and nothing else: split
      into tokens, its output is the rewritten tokens. */
  lemma SubstituteTokens(f: Filler, s: string)
    requires Regular(f)
    ensures Split(SubstituteFiller(f, s), ' ') == SubstTokens(f, Split(s, ' '))
  {
    var ts := SubstTokens(f, Split(s, ' '));
    SplitPieces(s, ' ');
    forall k | 0 <= k < |ts| ensures ' ' !in ts[k] {
      SubstTokenNoSpace(f, Split(s, ' ')[k], k == |ts| - 1);
    }
    SplitJoin(ts, ' ');
  }

  /** Applying two apart patterns in either order rewrites a token alike. */
  lemma SubstTokenCommutes(a: Filler, b: Filler, t: string, isLast: bool)
    requires Regular(a) && Regular(b) && Apart(a, b)
    ensures SubstToken(a, SubstToken(b, t, isLast), isLast) == SubstToken(b, SubstToken(a, t, isLast), isLast)
  {
    CanonNewline(a.canon);
    CanonNewline(b.canon);
    if |t| > 0 && t[|t| - 1] == '\n' {
      assert t !in a.forms && t !in b.forms;
    }
  }

  /** The three filler substitutions may be applied in any order: any two of
      them commute. */
  lemma {:induction false} FillerPatternsCommute(a: Filler, b: Filler, s: string)
    requires a in {HmFiller, UmFiller, UhFiller} && b in {HmFiller, UmFiller, UhFiller} && a != b
    ensures SubstituteFiller(a, SubstituteFiller(b, s)) == SubstituteFiller(b, SubstituteFiller(a, s))
  {
    FillersRegular();
    FillersApart();
    assert Apart(a, b) && Regular(a) && Regular(b);
    SubstituteTokens(a, s);
    SubstituteTokens(b, s);
    var ts := Split(s, ' ');
    var ab := SubstTokens(a, SubstTokens(b, ts));
    var ba := SubstTokens(b, SubstTokens(a, ts));
    forall k | 0 <= k < |ts| ensures ab[k] == ba[k] {
      SubstTokenCommutes(a, b, ts[k], k == |ts| - 1);
    }
    assert ab == ba;
  }

  /** The three patterns in sequence rewrite one token to its canonical
      spelling. */
  lemma CanonTokenComposes(t: string, isLast: bool)
    ensures SubstToken(UhFiller, SubstToken(UmFiller, SubstToken(HmFiller, t, isLast), isLast), isLast)
      == CanonToken(t, isLast)
  {
    FillersRegular();
    FillersApart();
    if CanonWord(t).None? && isLast && |t| > 0 && t[|t| - 1] == '\n' {
      var w := t[..|t| - 1];
      if w in HmFiller.forms {
        CanonNewline("hmmm");
      } else if w in UmFiller.forms {
        CanonNewline("ummm");
      } else if w in UhFiller.forms {
        CanonNewline("uhhh");
      }
    }
  }

  /** The three substitutions in sequence rewrite each token to its canonical
      spelling in one pass. */
  lemma {:induction false} FillersTokenwise(s: string)
    ensures Fillers(s) == Join(CanonTokens(Split(s, ' ')), ' ')
  {
    FillersRegular();
    var ts := Split(s, ' ');
    var s1 := SubstituteFiller(HmFiller, s);
    var s2 := SubstituteFiller(UmFiller, s1);
    SubstituteTokens(HmFiller, s);
    SubstituteTokens(UmFiller, s1);
    var t3 := SubstTokens(UhFiller, SubstTokens(UmFiller, SubstTokens(HmFiller, ts)));
    forall k | 0 <= k < |ts| ensures t3[k] == CanonTokens(ts)[k] {
      CanonTokenComposes(ts[k], k == |ts| - 1);
    }
    assert t3 == CanonTokens(ts);
  }

  /** Canonical tokens are already canonical. */
  lemma CanonTokenIdempotent(t: string, isLast: bool)
    ensures CanonToken(CanonToken(t, isLast), isLast) == CanonToken(t, isLast)
    ensures ' ' !in t ==> ' ' !in CanonToken(t, isLast)
  {
    CanonNewline("hmmm");
    CanonNewline("ummm");
    CanonNewline("uhhh");
  }

  /** Filler canonicalisation is idempotent. */
  lemma {:induction false} FillersIdempotent(s: string)
    ensures Fillers(Fillers(s)) == Fillers(s)
  {
    var ts := Split(s, ' ');
    var cs := CanonTokens(ts);
    SplitPieces(s, ' ');
    FillersTokenwise(s);
    forall k | 0 <= k < |cs| ensures ' ' !in cs[k] {
      CanonTokenIdempotent(ts[k], k == |ts| - 1);
    }
    SplitJoin(cs, ' ');
    FillersTokenwise(Fillers(s));
    forall k | 0 <= k < |cs| ensures CanonTokens(cs)[k] == cs[k] {
      CanonTokenIdempotent(ts[k], k == |ts| - 1);
    }
    assert CanonTokens(cs) == cs;
  }

  /** Every character of a token is a character of the text. */
  lemma SplitPieceChars(s: string, sep: char, k: int, c: char)
    requires 0 <= k < |Split(s, sep)| && c in Split(s, sep)[k] && c != sep
    ensures c in s
  {
    JoinSplit(s, sep);
    JoinMembers(Split(s, sep), sep, c);
  }

  lemma CanonTokenAvoids(t: string, isLast: bool, c: char)
    requires c !in t && c != '\n' && c !in "hmmm" && c !in "ummm" && c !in "uhhh"
    ensures c !in CanonToken(t, isLast)
  {
    if CanonWord(t).None? && isLast && |t| > 0 && t[|t| - 1] == '\n' && CanonWord(t[..|t| - 1]).Some? {
      var v := CanonWord(t[..|t| - 1]).value;
      assert v == "hmmm" || v == "ummm" || v == "uhhh";
      assert c !in v + "\n";
    }
  }

  /** Canonicalisation brings in no character other than the canonical
      spellings' and a newline already there. */
  lemma {:induction false} FillersAvoid(s: string, c: char)
    requires c !in s && c != ' ' && c != '\n' && c !in "hmmm" && c !in "ummm" && c !in "uhhh"
    ensures c !in Fillers(s)
  {
    FillersTokenwise(s);
    var ts := Split(s, ' ');
    var cs := CanonTokens(ts);
    JoinMembers(cs, ' ', c);
    forall k | 0 <= k < |cs| ensures c !in cs[k] {
      if c in ts[k] { SplitPieceChars(s, ' ', k, c); }
      CanonTokenAvoids(ts[k], k == |ts| - 1, c);
    }
  }

  // ---------------------------------------------------------------- norm_text's string steps

  const QuestionMarks: char := '⁇'

  /** The rewrite `norm_text` applies to one transcript: collapse space runs,
      delete every U+2047, replace `' aw '` by `' oh '`, canonicalise the
      fillers, and collapse space runs again. */
  function NormalizeWords(w: string): string
  {
    CollapseSpaces(Fillers(ReplaceAll(ReplaceAll(CollapseSpaces(w), [QuestionMarks], []), " aw ", " oh ")))
  }

  /** A normalised transcript holds no U+2047 and no two spaces in a row. */
  lemma NormalizeWordsClean(w: string)
    ensures QuestionMarks !in NormalizeWords(w)
    ensures SingleSpaced(NormalizeWords(w))
  {
    var s1 := ReplaceAll(CollapseSpaces(w), [QuestionMarks], []);
    ReplaceCharByNothing(CollapseSpaces(w), QuestionMarks);
    var s2 := ReplaceAll(s1, " aw ", " oh ");
    ReplaceAvoids(s1, " aw ", " oh ", QuestionMarks);
    FillersAvoid(s2, QuestionMarks);
    CollapseKeepsChars(Fillers(s2), QuestionMarks);
    CollapseSingleSpaced(Fillers(s2));
  }

  /** Replacement scans left to right without overlap, so of two `aw` in a
      row only the first becomes `oh`. */
  lemma AwReplacedOnce()
    ensures ReplaceAll("x aw aw y", " aw ", " oh ") == "x oh aw y"
  {
    var pat, rep := " aw ", " oh ";
    ReplaceAllSkip("y", pat, rep);
    assert "y"[1..] == [];
    ReplaceAllSkip(" y", pat, rep);
    assert " y"[1..] == "y";
    ReplaceAllSkip("w y", pat, rep);
    assert "w y"[1..] == " y";
    ReplaceAllSkip("aw y", pat, rep);
    assert "aw y"[1..] == "w y";
    assert " aw aw y"[..4] == pat && " aw aw y"[4..] == "aw y";
    ReplaceAllSkip("x aw aw y", pat, rep);
    assert "x aw aw y"[1..] == " aw aw y";
  }

  // ---------------------------------------------------------------- manifest records

  const RemovedKeys: set<string> := {"pred_text", "text", "audio_filepath"}

  /** One `read_manifest` line: the prediction moves to `words`, and the
      reference text and audio path go. The keys are read in the order
      `pred_text`, `text`, `audio_filepath`. */
  function ReadManifestRecord(rec: Record): (r: Result<Record>)
    ensures r.Ok? <==> "pred_text" in rec && "text" in rec && "audio_filepath" in rec
  {
    if "pred_text" !in rec then Err(KeyError("pred_text"))
    else
      var words := rec["pred_text"];
      if "text" !in rec then Err(KeyError("text"))
      else if "audio_filepath" !in rec then Err(KeyError("audio_filepath"))
      else Ok((rec - RemovedKeys)["words" := words])
  }

  /** A line without one of the three keys fails on the first one missing;
      a line that is read keeps every other key and value, and holds the
      prediction under `words`. */
  lemma ReadManifestRecordFields(rec: Record)
    ensures var r := ReadManifestRecord(rec);
      r.Err? ==> r.error == KeyError(
        if "pred_text" !in rec then "pred_text" else if "text" !in rec then "text" else "audio_filepath")
    ensures var r := ReadManifestRecord(rec);
      && (r.Ok? ==> r.value.Keys == rec.Keys - RemovedKeys + {"words"})
      && (r.Ok? ==> r.value["words"] == rec["pred_text"])
      && (r.Ok? ==> forall k :: k in rec && k !in RemovedKeys && k != "words" ==> r.value[k] == rec[k])
  {
  }

  /** The records of a manifest, or the first line's error. */
  function ReadManifestSpec(lines: seq<Record>): Result<seq<Record>>
    decreases |lines|
  {
    if lines == [] then Ok([])
    else match ReadManifestSpec(lines[..|lines| - 1])
      case Err(e) => Err(e)
      case Ok(data) =>
        match ReadManifestRecord(lines[|lines| - 1])
        case Err(e) => Err(e)
        case Ok(rec) => Ok(data + [rec])
  }

  method ReadManifest(lines: seq<Record>) returns (r: Result<seq<Record>>)
    ensures r == ReadManifestSpec(lines)
  {
    var data: seq<Record> := [];
    var i := 0;
    while i < |lines|
      invariant 0 <= i <= |lines|
      invariant ReadManifestSpec(lines[..i]) == Ok(data)
    {
      assert lines[..i + 1][..i] == lines[..i];
      var jsonLine := ReadManifestRecord(lines[i]);
      if jsonLine.Err? {
        ReadManifestErrSticks(lines, i + 1);
        return Err(jsonLine.error);
      }
      data := data + [jsonLine.value];
      i := i + 1;
    }
    assert lines[..i] == lines;
    return Ok(data);
  }

  lemma {:induction false} ReadManifestErrSticks(lines: seq<Record>, n: nat)
    requires n <= |lines| && ReadManifestSpec(lines[..n]).Err?
    ensures ReadManifestSpec(lines) == ReadManifestSpec(lines[..n])
    decreases |lines| - n
  {
    if n == |lines| {
      assert lines[..n] == lines;
    } else {
      assert lines[..n + 1][..n] == lines[..n];
      ReadManifestErrSticks(lines, n + 1);
    }
  }

  /** A manifest is read exactly when every line is. */
  lemma {:induction false} ReadManifestAccepts(lines: seq<Record>)
    ensures ReadManifestSpec(lines).Ok? <==> forall i :: 0 <= i < |lines| ==> ReadManifestRecord(lines[i]).Ok?
    decreases |lines|
  {
    if lines != [] {
      var n := |lines| - 1;
      var init := lines[..n];
      ReadManifestAccepts(init);
      if ReadManifestSpec(init).Err? {
        var i :| 0 <= i < n && ReadManifestRecord(init[i]).Err?;
        assert init[i] == lines[i];
      } else {
        forall i | 0 <= i < n ensures ReadManifestRecord(lines[i]).Ok? {
          assert init[i] == lines[i];
        }
      }
    }
  }

  /** Record `i` of a manifest that is read is the rewrite of line `i`. */
  lemma {:induction false} ReadManifestRecords(lines: seq<Record>)
    requires ReadManifestSpec(lines).Ok?
    ensures |ReadManifestSpec(lines).value| == |lines|
    ensures forall i :: 0 <= i < |lines| ==>
      ReadManifestRecord(lines[i]).Ok? && ReadManifestSpec(lines).value[i] == ReadManifestRecord(lines[i]).value
    decreases |lines|
  {
    if lines != [] {
      var n := |lines| - 1;
      var init := lines[..n];
      ReadManifestRecords(init);
      var data := ReadManifestSpec(init).value;
      forall i | 0 <= i < n
        ensures ReadManifestRecord(lines[i]).Ok? && ReadManifestSpec(lines).value[i] == ReadManifestRecord(lines[i]).value
      {
        assert init[i] == lines[i];
        assert (data + [ReadManifestRecord(lines[n]).value])[i] == data[i];
      }
    }
  }

  // ---------------------------------------------------------------- norm_text

  /** A record whose transcript `re.sub` accepts: a string. */
  predicate Rewritable(item: Record)
  {
    "words" in item && item["words"].Text?
  }

  /** What rewriting a record that is not rewritable raises. */
  function ItemError(item: Record): Error
  {
    if "words" !in item then KeyError("words") else TypeError
  }

  /** The record with its transcript normalised. */
  function NormItem(item: Record): Record
    requires Rewritable(item)
  {
    item["words" := Text(NormalizeWords(item["words"].s))]
  }

  /** The error of the first record that is not rewritable, if any. */
  function FirstBadItem(items: seq<Record>): (r: Option<Error>)
    ensures r.None? <==> forall i :: 0 <= i < |items| ==> Rewritable(items[i])
    decreases |items|
  {
    if items == [] then None
    else if !Rewritable(items[0]) then Some(ItemError(items[0]))
    else
      var r := FirstBadItem(items[1..]);
      assert forall i :: 1 <= i < |items| ==> items[1..][i - 1] == items[i];
      r
  }

  /** What `norm_text` returns for a manifest: its records, each with the
      transcript rewritten. */
  function NormTextSpec(lines: seq<Record>): Result<seq<Record>>
  {
    match ReadManifestSpec(lines)
    case Err(e) => Err(e)
    case Ok(items) => RewriteAll(items)
  }

  /** The records with their transcripts normalised, or the error of the
      first record that has no text under `words`. */
  function RewriteAll(items: seq<Record>): Result<seq<Record>>
  {
    match FirstBadItem(items)
    case Some(e) => Err(e)
    case None => Ok(seq(|items|, k requires 0 <= k < |items| => NormItem(items[k])))
  }

  /** `norm_text`: reads the manifest, then rewrites `words` of each record
      in place. */
  method NormText(lines: seq<Record>) returns (r: Result<seq<Record>>)
    ensures r == NormTextSpec(lines)
  {
    var read := ReadManifest(lines);
    if read.Err? {
      return Err(read.error);
    }
    r := RewriteItems(read.value);
  }

  /** The loop of `norm_text`: each record's `words` is rewritten in place,
      in order; a record without text there stops the loop. */
  method RewriteItems(items: seq<Record>) returns (r: Result<seq<Record>>)
    ensures r == RewriteAll(items)
  {
    var manifestItems := items;
    for i := 0 to |items|
      invariant |manifestItems| == |items|
      invariant forall k :: 0 <= k < i ==> Rewritable(items[k]) && manifestItems[k] == NormItem(items[k])
      invariant forall k :: i <= k < |items| ==> manifestItems[k] == items[k]
    {
      var item := manifestItems[i];
      if "words" !in item || !item["words"].Text? {
        FirstBadAt(items, i);
        return Err(ItemError(item));
      }
      var rewritten := NormalizeItem(item);
      manifestItems := manifestItems[i := rewritten];
    }
    RewriteAllOk(items, manifestItems);
    return Ok(manifestItems);
  }

  /** Records that can all be rewritten are rewritten one by one. */
  lemma RewriteAllOk(items: seq<Record>, out: seq<Record>)
    requires |out| == |items|
    requires forall k :: 0 <= k < |items| ==> Rewritable(items[k]) && out[k] == NormItem(items[k])
    ensures RewriteAll(items) == Ok(out)
  {
    assert FirstBadItem(items).None?;
    var spec := seq(|items|, k requires 0 <= k < |items| => NormItem(items[k]));
    assert forall k :: 0 <= k < |items| ==> out[k] == spec[k];
    assert out == spec;
  }

  /** The loop body of `norm_text`: the transcript goes through each rewrite
      in turn and is stored back under `words`. */
  method NormalizeItem(item: Record) returns (r: Record)
    requires Rewritable(item)
    ensures r == NormItem(item)
  {
    var words := item["words"].s;
    words := CollapseSpaces(words);
    words := ReplaceAll(words, [QuestionMarks], []);
    words := ReplaceAll(words, " aw ", " oh ");
    words := CollapseSpaces(Fillers(words));
    r := item["words" := Text(words)];
  }

  /** When the records before `i` can be rewritten and record `i` cannot,
      record `i`'s error is the first. */
  lemma {:induction false} FirstBadAt(items: seq<Record>, i: int)
    requires 0 <= i < |items| && !Rewritable(items[i])
    requires forall k :: 0 <= k < i ==> Rewritable(items[k])
    ensures FirstBadItem(items) == Some(ItemError(items[i]))
    decreases i
  {
    if i > 0 {
      assert Rewritable(items[0]);
      assert items[1..][i - 1] == items[i];
      forall k | 0 <= k < i - 1 ensures Rewritable(items[1..][k]) {
        assert items[1..][k] == items[k + 1];
      }
      FirstBadAt(items[1..], i - 1);
    }
  }

  /** `norm_text` keeps the records, their number and their order; only
      `words` changes, to the normalised prediction. It fails exactly when a
      line lacks one of the three keys or its prediction is not a string. */
  lemma NormTextKeepsRecords(lines: seq<Record>)
    ensures NormTextSpec(lines).Ok? <==>
      forall i :: 0 <= i < |lines| ==>
        "pred_text" in lines[i] && "text" in lines[i] && "audio_filepath" in lines[i] && lines[i]["pred_text"].Text?
    ensures NormTextSpec(lines).Ok? ==>
      var out := NormTextSpec(lines).value;
      && |out| == |lines|
      && forall i :: 0 <= i < |lines| ==>
           && out[i].Keys == lines[i].Keys - RemovedKeys + {"words"}
           && out[i]["words"] == Text(NormalizeWords(lines[i]["pred_text"].s))
           && forall k :: k in lines[i] && k !in RemovedKeys && k != "words" ==> out[i][k] == lines[i][k]
  {
    ReadManifestAccepts(lines);
    if ReadManifestSpec(lines).Ok? {
      ReadManifestRecords(lines);
    }
  }
}
