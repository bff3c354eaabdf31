/** The session table of the diarizer: unique ids taken from file paths
    (`get_uniqname_from_filepath`), the table built from a manifest
    (`audio_rttm_map`), its pruning by voice-activity output
    (`validate_vad_manifest`) and the per-session segment lists
    (`extract_timestamps`). A manifest is the sequence of its parsed lines. */
module Sessions {

  import opened Common

  /** Index of the last `c` in `s`, or -1 (Python's `str.rfind`). */
  function RFind(s: string, c: char): (r: int)
    ensures -1 <= r < |s|
    ensures r >= 0 ==> s[r] == c
  {
    if s == [] then -1
    else if s[|s| - 1] == c then |s| - 1
    else RFind(s[..|s| - 1], c)
  }

  /** `os.path.basename`: what follows the last '/'. */
  function Basename(p: string): string
  {
    p[RFind(p, '/') + 1..]
  }

  /** `os.path.splitext(p)[0]`: drop the text from the last '.' on, unless
      that dot ends the path's directory part or only dots precede it in the
      final component (a hidden file such as ".wav" has no extension). */
  function SplitextRoot(p: string): string
  {
    var sep := RFind(p, '/');
    var dot := RFind(p, '.');
    if dot > sep && exists i :: sep + 1 <= i < dot && p[i] != '.' then p[..dot] else p
  }

  /** The unique name of a recording: its base name without extension. */
  function UniqName(p: string): string
  {
    SplitextRoot(Basename(p))
  }

  /** `get_uniqname_from_filepath`: only a string path has a name. */
  function UniqnameFromFilepath(filepath: Value): (r: Result<string>)
    ensures r.Err? <==> !filepath.Text?
    ensures r.Err? ==> r.error == TypeError
  {
    if filepath.Text? then Ok(UniqName(filepath.s)) else Err(TypeError)
  }

  /** No `c` follows the one `RFind` returns. */
  lemma {:induction false} RFindLast(s: string, c: char)
    ensures forall j :: RFind(s, c) < j < |s| ==> s[j] != c
    decreases |s|
  {
    if s != [] && s[|s| - 1] != c {
      var init := s[..|s| - 1];
      RFindLast(init, c);
      forall j | RFind(s, c) < j < |s| ensures s[j] != c {
        if j < |init| { assert s[j] == init[j]; }
      }
    }
  }

  /** `RFind` returns -1 exactly when `c` does not occur. */
  lemma RFindAbsent(s: string, c: char)
    ensures RFind(s, c) == -1 <==> c !in s
  {
    RFindLast(s, c);
  }

  /** The last occurrence is the one `RFind` returns. */
  lemma RFindAt(s: string, c: char, k: int)
    requires 0 <= k < |s| && s[k] == c
    requires forall j :: k < j < |s| ==> s[j] != c
    ensures RFind(s, c) == k
  {
    RFindLast(s, c);
  }

  lemma BasenameNoSlash(p: string)
    ensures '/' !in Basename(p)
  {
    var sep := RFind(p, '/');
    RFindLast(p, '/');
    var b := p[sep + 1..];
    forall j | 0 <= j < |b| ensures b[j] != '/' {
      assert b[j] == p[sep + 1 + j];
    }
  }

  lemma SplitextRootIsPrefix(p: string)
    ensures SplitextRoot(p) <= p
  {
    var dot := RFind(p, '.');
    if SplitextRoot(p) != p {
      assert SplitextRoot(p) == p[..dot];
    }
  }

  /** A unique name never contains '/' and is a prefix of the base name. */
  lemma UniqNameIsPrefixOfBasename(p: string)
    ensures '/' !in UniqName(p)
    ensures UniqName(p) <= Basename(p)
  {
    var b := Basename(p);
    BasenameNoSlash(p);
    SplitextRootIsPrefix(b);
    var u := UniqName(p);
    forall j | 0 <= j < |u| ensures u[j] != '/' {
      assert u[j] == b[j];
    }
  }

  /** Round trip: a directory, a name with at least one character other than
      '.', and an extension without '.' or '/' give back the name. */
  lemma {:induction false} UniqNameOfPath(dir: string, name: string, ext: string)
    requires '/' !in name && '/' !in ext && '.' !in ext
    requires exists i :: 0 <= i < |name| && name[i] != '.'
    ensures UniqName(dir + "/" + name + "." + ext) == name
  {
    var p := dir + "/" + name + "." + ext;
    var sepIdx := |dir|;
    var dotIdx := |dir| + 1 + |name|;
    assert p[sepIdx] == '/';
    forall j | sepIdx < j < |p| ensures p[j] != '/' {
      if j < dotIdx { assert p[j] == name[j - sepIdx - 1]; }
      else if j > dotIdx { assert p[j] == ext[j - dotIdx - 1]; }
    }
    RFindAt(p, '/', sepIdx);
    var b := Basename(p);
    assert b == name + "." + ext;
    var d := |name|;
    assert b[d] == '.';
    forall j | d < j < |b| ensures b[j] != '.' && b[j] != '/' {
      assert b[j] == ext[j - d - 1];
    }
    forall j | 0 <= j < d ensures b[j] != '/' {
      assert b[j] == name[j];
    }
    RFindAt(b, '.', d);
    RFindAbsent(b, '/');
    var i :| 0 <= i < |name| && name[i] != '.';
    assert b[i] == name[i];
    assert b[..d] == name;
  }

  /** A name with no '.' keeps no extension to drop. */
  lemma {:induction false} UniqNameWithoutExtension(dir: string, name: string)
    requires '/' !in name && '.' !in name
    ensures UniqName(dir + "/" + name) == name
  {
    var p := dir + "/" + name;
    forall j | |dir| < j < |p| ensures p[j] != '/' {
      assert p[j] == name[j - |dir| - 1];
    }
    assert p[|dir|] == '/';
    RFindAt(p, '/', |dir|);
    assert Basename(p) == name;
    RFindAbsent(name, '.');
  }

  /** A hidden file keeps its whole name. */
  lemma HiddenFileKeepsName()
    ensures UniqName("data/.wav") == ".wav"
  {
    var p := "data/.wav";
    assert p[4] == '/' && p[5] == '.' && p[6] == 'w' && p[7] == 'a' && p[8] == 'v';
    RFindAt(p, '/', 4);
    assert Basename(p) == ".wav";
    var b := ".wav";
    assert b[0] == '.' && b[1] == 'w' && b[2] == 'a' && b[3] == 'v';
    RFindAbsent(b, '/');
    RFindAt(b, '.', 0);
  }

  // ---------------------------------------------------------------- audio_rttm_map

  /** The per-session metadata collected from one manifest line; absent
      optional keys are `None`. */
  datatype SessionMeta = SessionMeta(
    audioFilepath: Value,
    rttmFilepath: Value,
    offset: Value,
    duration: Value,
    text: Value,
    numSpeakers: Value,
    uemFilepath: Value,
    ctmFilepath: Value)

  const DuplicateSession := KeyError("file is already part of AUDIO_RTTM_MAP")

  /** The `meta` dictionary of one line. It is built only for a line whose
      key was found, and such a line has an audio path, so reading that entry
      with `Get` is the same as indexing it. */
  function MetaOf(dic: Record): SessionMeta
  {
    SessionMeta(Get(dic, "audio_filepath"), Get(dic, "rttm_filepath"), Get(dic, "offset"),
      Get(dic, "duration"), Get(dic, "text"), Get(dic, "num_speakers"),
      Get(dic, "uem_filepath"), Get(dic, "ctm_filepath"))
  }

  /** The key of one manifest line: `uniq_id` when the line has one (whatever
      its value), else the unique name of the audio path. The audio path is
      read first, so a line without one fails with `KeyError` either way. */
  function LineKey(dic: Record): Result<Value>
  {
    if "audio_filepath" !in dic then Err(KeyError("audio_filepath"))
    else if "uniq_id" in dic then Ok(dic["uniq_id"])
    else match UniqnameFromFilepath(dic["audio_filepath"])
      case Ok(name) => Ok(Text(name))
      case Err(e) => Err(e)
  }

  /** A line has a key unless it lacks an audio path, or lacks a `uniq_id`
      and its audio path is not text; the key is the `uniq_id` when there is
      one, else the unique name of the audio path. */
  lemma LineKeyCases(dic: Record)
    ensures LineKey(dic).Err? <==> "audio_filepath" !in dic || ("uniq_id" !in dic && !dic["audio_filepath"].Text?)
    ensures LineKey(dic).Ok? && "uniq_id" in dic ==> LineKey(dic).value == dic["uniq_id"]
    ensures LineKey(dic).Ok? && "uniq_id" !in dic ==> LineKey(dic).value == Text(UniqName(dic["audio_filepath"].s))
  {
  }

  /** One loop step of `audio_rttm_map`. */
  function AddLine(table: map<Value, SessionMeta>, dic: Record): Result<map<Value, SessionMeta>>
  {
    match LineKey(dic)
    case Err(e) => Err(e)
    case Ok(key) => if key in table then Err(DuplicateSession) else Ok(table[key := MetaOf(dic)])
  }

  /** The table built from the manifest lines, or the first error. */
  function RttmMap(lines: seq<Record>): Result<map<Value, SessionMeta>>
    decreases |lines|
  {
    if lines == [] then Ok(map[])
    else match RttmMap(lines[..|lines| - 1])
      case Err(e) => Err(e)
      case Ok(table) => AddLine(table, lines[|lines| - 1])
  }

  method AudioRttmMap(lines: seq<Record>) returns (r: Result<map<Value, SessionMeta>>)
    ensures r == RttmMap(lines)
  {
    var table: map<Value, SessionMeta> := map[];
    var i := 0;
    while i < |lines|
      invariant 0 <= i <= |lines|
      invariant RttmMap(lines[..i]) == Ok(table)
    {
      var dic := lines[i];
      assert lines[..i + 1][..i] == lines[..i];
      var key := LineKey(dic);
      if key.Err? {
        assert RttmMap(lines[..i + 1]).Err?;
        RttmMapErrSticks(lines, i + 1);
        return Err(key.error);
      }
      if key.value in table {
        RttmMapErrSticks(lines, i + 1);
        return Err(DuplicateSession);
      }
      table := table[key.value := MetaOf(dic)];
      i := i + 1;
    }
    assert lines[..i] == lines;
    return Ok(table);
  }

  /** Once a prefix fails, every longer prefix fails with the same error. */
  lemma {:induction false} RttmMapErrSticks(lines: seq<Record>, n: nat)
    requires n <= |lines| && RttmMap(lines[..n]).Err?
    ensures RttmMap(lines) == RttmMap(lines[..n])
    decreases |lines| - n
  {
    if n == |lines| {
      assert lines[..n] == lines;
    } else {
      assert lines[..n + 1][..n] == lines[..n];
      RttmMapErrSticks(lines, n + 1);
    }
  }

  predicate AllKeyed(lines: seq<Record>)
  {
    forall i :: 0 <= i < |lines| ==> LineKey(lines[i]).Ok?
  }

  predicate DistinctKeys(lines: seq<Record>)
    requires AllKeyed(lines)
  {
    forall i, j :: 0 <= i < j < |lines| ==> LineKey(lines[i]).value != LineKey(lines[j]).value
  }

  /** How the last line of a manifest extends the table of the lines before
      it: an earlier error stays, a line without a key fails, a key already
      in the table is a duplicate, and a new key is added with the line's
      metadata. */
  lemma RttmMapLast(lines: seq<Record>)
    requires lines != []
    ensures var init := RttmMap(lines[..|lines| - 1]);
      var key := LineKey(lines[|lines| - 1]);
      && (init.Err? ==> RttmMap(lines) == init)
      && (init.Ok? && key.Err? ==> RttmMap(lines) == Err(key.error))
      && (init.Ok? && key.Ok? && key.value in init.value ==> RttmMap(lines) == Err(DuplicateSession))
      && (init.Ok? && key.Ok? && key.value !in init.value ==>
            RttmMap(lines) == Ok(init.value[key.value := MetaOf(lines[|lines| - 1])]))
  {
  }

  /** The manifest is accepted exactly when every line has a key and no two
      lines share one. When every line has a key but the manifest is refused,
      the error is a duplicate; otherwise it is the first unkeyed line's. */
  lemma {:induction false} RttmMapAccepts(lines: seq<Record>)
    ensures RttmMap(lines).Ok? <==> AllKeyed(lines) && DistinctKeys(lines)
    ensures RttmMap(lines).Err? && AllKeyed(lines) ==> RttmMap(lines).error == DuplicateSession
    decreases |lines|
  {
    if lines != [] {
      var n := |lines| - 1;
      var init := lines[..n];
      RttmMapAccepts(init);
      RttmMapLast(lines);
      assert forall i :: 0 <= i < n ==> init[i] == lines[i];
      if AllKeyed(lines) {
        assert AllKeyed(init);
        if RttmMap(init).Ok? {
          RttmMapAcceptsLast(lines);
        } else {
          var i, j :| 0 <= i < j < n && LineKey(init[i]).value == LineKey(init[j]).value;
          assert LineKey(lines[i]).value == LineKey(lines[j]).value;
        }
      } else if !AllKeyed(init) {
        var i :| 0 <= i < n && LineKey(init[i]).Err?;
        assert LineKey(lines[i]).Err?;
      }
    }
  }

  /** The step of `RttmMapAccepts` where every line has a key and the lines
      before the last one are accepted. */
  lemma RttmMapAcceptsLast(lines: seq<Record>)
    requires lines != [] && AllKeyed(lines)
    requires RttmMap(lines[..|lines| - 1]).Ok? && DistinctKeys(lines[..|lines| - 1])
    ensures RttmMap(lines).Ok? <==> DistinctKeys(lines)
    ensures RttmMap(lines).Err? ==> RttmMap(lines).error == DuplicateSession
  {
    RttmMapLast(lines);
    if LineKey(lines[|lines| - 1]).value in RttmMap(lines[..|lines| - 1]).value {
      var i := RttmMapKeyLine(lines);
      assert LineKey(lines[i]).value == LineKey(lines[|lines| - 1]).value;
    } else {
      RttmMapNewKey(lines);
      DistinctKeysSnoc(lines);
    }
  }

  /** A key not yet in the table of the lines before the last one differs
      from the key of each of those lines. */
  lemma RttmMapNewKey(lines: seq<Record>)
    requires lines != [] && RttmMap(lines[..|lines| - 1]).Ok? && LineKey(lines[|lines| - 1]).Ok?
    requires LineKey(lines[|lines| - 1]).value !in RttmMap(lines[..|lines| - 1]).value
    ensures forall i :: 0 <= i < |lines| - 1 ==>
      LineKey(lines[i]).Ok? && LineKey(lines[i]).value != LineKey(lines[|lines| - 1]).value
  {
    var init := lines[..|lines| - 1];
    RttmMapContents(init);
    forall i | 0 <= i < |init|
      ensures LineKey(lines[i]).Ok? && LineKey(lines[i]).value != LineKey(lines[|lines| - 1]).value
    {
      assert init[i] == lines[i];
    }
  }

  /** A key already in the table of the lines before the last one is the key
      of one of those lines. */
  lemma RttmMapKeyLine(lines: seq<Record>) returns (i: int)
    requires lines != [] && RttmMap(lines[..|lines| - 1]).Ok? && LineKey(lines[|lines| - 1]).Ok?
    requires LineKey(lines[|lines| - 1]).value in RttmMap(lines[..|lines| - 1]).value
    ensures 0 <= i < |lines| - 1 && LineKey(lines[i]) == LineKey(lines[|lines| - 1])
  {
    var init := lines[..|lines| - 1];
    i := RttmMapKeyOrigin(init, LineKey(lines[|lines| - 1]).value);
    assert init[i] == lines[i];
  }

  /** Keys stay distinct when the last line's key differs from every earlier
      one. */
  lemma DistinctKeysSnoc(lines: seq<Record>)
    requires lines != [] && AllKeyed(lines)
    requires DistinctKeys(lines[..|lines| - 1])
    requires forall i :: 0 <= i < |lines| - 1 ==> LineKey(lines[i]).value != LineKey(lines[|lines| - 1]).value
    ensures DistinctKeys(lines)
  {
    var init := lines[..|lines| - 1];
    forall i, j | 0 <= i < j < |lines| ensures LineKey(lines[i]).value != LineKey(lines[j]).value {
      if j < |lines| - 1 {
        assert init[i] == lines[i] && init[j] == lines[j];
      }
    }
  }

  /** An accepted manifest gives one entry per line. */
  lemma {:induction false} RttmMapSize(lines: seq<Record>)
    requires RttmMap(lines).Ok?
    ensures |RttmMap(lines).value| == |lines|
    decreases |lines|
  {
    if lines != [] {
      var init := lines[..|lines| - 1];
      RttmMapLast(lines);
      RttmMapSize(init);
    }
  }

  /** In an accepted manifest's table, each line's key maps to that line's
      metadata. */
  lemma {:induction false} RttmMapContents(lines: seq<Record>)
    requires RttmMap(lines).Ok?
    ensures forall i :: 0 <= i < |lines| ==>
      && LineKey(lines[i]).Ok?
      && LineKey(lines[i]).value in RttmMap(lines).value
      && RttmMap(lines).value[LineKey(lines[i]).value] == MetaOf(lines[i])
    decreases |lines|
  {
    if lines != [] {
      var n := |lines| - 1;
      var init := lines[..n];
      RttmMapLast(lines);
      RttmMapContents(init);
      var table := RttmMap(init).value;
      var t2 := RttmMap(lines).value;
      forall i | 0 <= i < n
        ensures LineKey(lines[i]).Ok? && LineKey(lines[i]).value in t2 && t2[LineKey(lines[i]).value] == MetaOf(lines[i])
      {
        assert init[i] == lines[i];
      }
    }
  }

  /** Every key of an accepted manifest's table is the key of one of its
      lines. */
  lemma {:induction false} RttmMapKeyOrigin(lines: seq<Record>, k: Value) returns (i: int)
    requires RttmMap(lines).Ok? && k in RttmMap(lines).value
    ensures 0 <= i < |lines| && LineKey(lines[i]) == Ok(k)
    decreases |lines|
  {
    var n := |lines| - 1;
    var init := lines[..n];
    RttmMapLast(lines);
    if LineKey(lines[n]) == Ok(k) {
      i := n;
    } else {
      i := RttmMapKeyOrigin(init, k);
      assert init[i] == lines[i];
    }
  }

  // ---------------------------------------------------------------- validate_vad_manifest

  /** What one voice-activity line contributes: its `uniq_id` when its
      duration is positive, nothing otherwise. `uniq_id` is read only for a
      positive duration; a duration that is not a number cannot be compared
      with 0. */
  function VadLine(dic: Record): (r: Result<Option<Value>>)
    ensures r.Ok? && r.value.Some? <==> "duration" in dic && dic["duration"].Number? && dic["duration"].n > 0.0 && "uniq_id" in dic
    ensures r.Ok? && r.value.Some? ==> r.value.value == dic["uniq_id"]
  {
    if "duration" !in dic then Err(KeyError("duration"))
    else match dic["duration"]
      case Number(d) =>
        if d > 0.0 then
          if "uniq_id" in dic then Ok(Some(dic["uniq_id"])) else Err(KeyError("uniq_id"))
        else Ok(None)
      case _ => Err(TypeError)
  }

  /** The ids with speech in the voice-activity manifest, or the first error. */
  function SpeechIds(vad: seq<Record>): Result<set<Value>>
    decreases |vad|
  {
    if vad == [] then Ok({})
    else match SpeechIds(vad[..|vad| - 1])
      case Err(e) => Err(e)
      case Ok(ids) =>
        match VadLine(vad[|vad| - 1])
        case Err(e) => Err(e)
        case Ok(None) => Ok(ids)
        case Ok(Some(id)) => Ok(ids + {id})
  }

  predicate HasSpeech(vad: seq<Record>, id: Value)
  {
    exists i :: 0 <= i < |vad| && VadLine(vad[i]) == Ok(Some(id))
  }

  /** The voice-activity manifest is read without error exactly when every
      line is; an id then has speech exactly when some line with a positive
      duration names it. */
  lemma {:induction false} SpeechIdsCharacterized(vad: seq<Record>)
    ensures SpeechIds(vad).Ok? <==> forall i :: 0 <= i < |vad| ==> VadLine(vad[i]).Ok?
    ensures SpeechIds(vad).Ok? ==> forall id :: id in SpeechIds(vad).value <==> HasSpeech(vad, id)
    decreases |vad|
  {
    if vad != [] {
      var n := |vad| - 1;
      var init := vad[..n];
      SpeechIdsCharacterized(init);
      assert forall i :: 0 <= i < n ==> init[i] == vad[i];
      if SpeechIds(init).Ok? && VadLine(vad[n]).Ok? {
        forall id ensures id in SpeechIds(vad).value <==> HasSpeech(vad, id) {
          if HasSpeech(vad, id) {
            var i :| 0 <= i < |vad| && VadLine(vad[i]) == Ok(Some(id));
            if i < n { assert HasSpeech(init, id); }
          }
          if id in SpeechIds(init).value {
            var i :| 0 <= i < n && VadLine(init[i]) == Ok(Some(id));
            assert VadLine(vad[i]) == Ok(Some(id));
          }
        }
      } else if SpeechIds(init).Err? {
        var i :| 0 <= i < n && VadLine(init[i]).Err?;
        assert VadLine(vad[i]).Err?;
      }
    }
  }

  /** The entries of `table` whose key is in `ids`. */
  function Restrict(table: map<Value, SessionMeta>, ids: set<Value>): (r: map<Value, SessionMeta>)
    ensures r.Keys == table.Keys * ids
    ensures forall k :: k in r ==> r[k] == table[k]
  {
    map k | k in table && k in ids :: table[k]
  }

  /** Deleting an id that is not kept narrows the restriction by that id. */
  lemma RestrictDrop(table: map<Value, SessionMeta>, keep: set<Value>, extra: set<Value>, id: Value)
    requires id in extra && id !in keep
    ensures Restrict(table, keep + extra) - {id} == Restrict(table, keep + (extra - {id}))
  {
    assert (keep + extra) - {id} == keep + (extra - {id});
  }

  const AllSilence := ValueError("All files present in manifest contains silence, aborting next steps")

  /** The session table, which `validate_vad_manifest` prunes in place. */
  class SessionTable {
    var sessions: map<Value, SessionMeta>

    constructor(table: map<Value, SessionMeta>)
      ensures sessions == table
    {
      sessions := table;
    }

    /** Reads the voice-activity manifest, then deletes every session with no
        speech. A read error leaves the table as it was; an emptied table is
        reported as a `ValueError` after the deletions. */
    method ValidateVadManifest(vad: seq<Record>) returns (outcome: Outcome)
      modifies this
      ensures SpeechIds(vad).Err? ==> outcome == Fail(SpeechIds(vad).error) && sessions == old(sessions)
      ensures SpeechIds(vad).Ok? ==> sessions == Restrict(old(sessions), SpeechIds(vad).value)
      ensures SpeechIds(vad).Ok? ==> (outcome == Pass <==> |sessions| > 0)
      ensures outcome != Pass ==> outcome.error == AllSilence || SpeechIds(vad).Err?
    {
      var read := ReadSpeechIds(vad);
      if read.Err? {
        return Fail(read.error);
      }
      var vadIds := read.value;
      DeleteSilence(vadIds);
      if |sessions| == 0 {
        return Fail(AllSilence);
      }
      return Pass;
    }
  
    /** The deleting half of `validate_vad_manifest`: every session whose id
        is not in `vadIds` is deleted, one at a time. */
    method DeleteSilence(vadIds: set<Value>)
      modifies this
      ensures sessions == Restrict(old(sessions), vadIds)
    {
      var silenceIds := sessions.Keys - vadIds;
      assert Restrict(sessions, vadIds + silenceIds) == sessions by {
        assert sessions.Keys * (vadIds + silenceIds) == sessions.Keys;
      }
      while silenceIds != {}
        invariant silenceIds <= old(sessions).Keys
        invariant silenceIds !! vadIds
        invariant sessions == Restrict(old(sessions), vadIds + silenceIds)
        decreases |silenceIds|
      {
        var id :| id in silenceIds;
        RestrictDrop(old(sessions), vadIds, silenceIds, id);
        sessions := sessions - {id};
        silenceIds := silenceIds - {id};
      }
      assert vadIds + silenceIds == vadIds;
    }
  }

  /** The reading half of `validate_vad_manifest`: the ids of the lines
      with a positive duration. */
  method ReadSpeechIds(vad: seq<Record>) returns (r: Result<set<Value>>)
    ensures r == SpeechIds(vad)
  {
    var vadIds: set<Value> := {};
    var i := 0;
    while i < |vad|
      invariant 0 <= i <= |vad|
      invariant SpeechIds(vad[..i]) == Ok(vadIds)
    {
      assert vad[..i + 1][..i] == vad[..i];
      var line := VadLine(vad[i]);
      if line.Err? {
        SpeechIdsErrSticks(vad, i + 1);
        return Err(line.error);
      }
      if line.value.Some? {
        vadIds := vadIds + {line.value.value};
      }
      i := i + 1;
    }
    assert vad[..i] == vad;
    return Ok(vadIds);
  }

  lemma {:induction false} SpeechIdsErrSticks(vad: seq<Record>, n: nat)
    requires n <= |vad| && SpeechIds(vad[..n]).Err?
    ensures SpeechIds(vad) == SpeechIds(vad[..n])
    decreases |vad| - n
  {
    if n == |vad| {
      assert vad[..n] == vad;
    } else {
      assert vad[..n + 1][..n] == vad[..n];
      SpeechIdsErrSticks(vad, n + 1);
    }
  }

  // ---------------------------------------------------------------- extract_timestamps

  /** A `[start, end]` entry of a session's segment list, holding the JSON
      values read from the manifest and their sum. */
  datatype Span = Span(start: Value, end: Value)

  /** The session id and the `[offset, offset + duration]` entry of one
      segment line. Keys are read in the order `uniq_id`, `offset`,
      `duration`. Python's `+` adds two numbers and joins two strings; any
      other pair of times raises `TypeError`. */
  function SegmentLine(dic: Record): (r: Result<(Value, Span)>)
    ensures r.Ok? <==> "uniq_id" in dic && "offset" in dic && "duration" in dic
                       && ((dic["offset"].Number? && dic["duration"].Number?)
                           || (dic["offset"].Text? && dic["duration"].Text?))
    ensures r.Ok? ==> r.value.0 == dic["uniq_id"] && r.value.1.start == dic["offset"]
    ensures r.Ok? && dic["offset"].Number? ==>
      r.value.1.end.Number? && r.value.1.end.n - r.value.1.start.n == dic["duration"].n
    ensures r.Ok? && dic["offset"].Text? ==>
      r.value.1.end.Text? && r.value.1.end.s == dic["offset"].s + dic["duration"].s
    ensures r.Err? ==> r.error == TypeError || r.error.KeyError?
  {
    if "uniq_id" !in dic then Err(KeyError("uniq_id"))
    else if "offset" !in dic then Err(KeyError("offset"))
    else if "duration" !in dic then Err(KeyError("duration"))
    else match (dic["offset"], dic["duration"])
      case (Number(start), Number(dur)) => Ok((dic["uniq_id"], Span(Number(start), Number(start + dur))))
      case (Text(start), Text(dur)) => Ok((dic["uniq_id"], Span(Text(start), Text(start + dur))))
      case _ => Err(TypeError)
  }

  /** Text times are joined rather than added: an offset of `"1"` and a
      duration of `"2"` give the entry `["1", "12"]`. */
  lemma SegmentLineJoinsText()
    ensures SegmentLine(map["uniq_id" := Text("a"), "offset" := Text("1"), "duration" := Text("2")])
            == Ok((Text("a"), Span(Text("1"), Text("12"))))
  {
    var dic := map["uniq_id" := Text("a"), "offset" := Text("1"), "duration" := Text("2")];
    assert "uniq_id" in dic && "offset" in dic && "duration" in dic;
    assert dic["offset"] == Text("1") && dic["duration"] == Text("2");
    assert "1" + "2" == "12";
  }

  /** The segment lists of every session, or the first error. */
  function Timestamps(lines: seq<Record>): Result<map<Value, seq<Span>>>
    decreases |lines|
  {
    if lines == [] then Ok(map[])
    else match Timestamps(lines[..|lines| - 1])
      case Err(e) => Err(e)
      case Ok(stamps) =>
        match SegmentLine(lines[|lines| - 1])
        case Err(e) => Err(e)
        case Ok(seg) =>
          var before := if seg.0 in stamps then stamps[seg.0] else [];
          Ok(stamps[seg.0 := before + [seg.1]])
  }

  method ExtractTimestamps(lines: seq<Record>) returns (r: Result<map<Value, seq<Span>>>)
    ensures r == Timestamps(lines)
  {
    var timeStamps: map<Value, seq<Span>> := map[];
    var i := 0;
    while i < |lines|
      invariant 0 <= i <= |lines|
      invariant Timestamps(lines[..i]) == Ok(timeStamps)
    {
      assert lines[..i + 1][..i] == lines[..i];
      var seg := SegmentLine(lines[i]);
      if seg.Err? {
        TimestampsErrSticks(lines, i + 1);
        return Err(seg.error);
      }
      var uniqName := seg.value.0;
      ghost var prev := timeStamps;
      if uniqName !in timeStamps {
        timeStamps := timeStamps[uniqName := []];
      }
      timeStamps := timeStamps[uniqName := timeStamps[uniqName] + [seg.value.1]];
      assert timeStamps == prev[uniqName := (if uniqName in prev then prev[uniqName] else []) + [seg.value.1]];
      assert Timestamps(lines[..i + 1]) == Ok(timeStamps) by {
        assert lines[..i + 1][i] == lines[i];
      }
      i := i + 1;
    }
    assert lines[..i] == lines;
    return Ok(timeStamps);
  }

  lemma {:induction false} TimestampsErrSticks(lines: seq<Record>, n: nat)
    requires n <= |lines| && Timestamps(lines[..n]).Err?
    ensures Timestamps(lines) == Timestamps(lines[..n])
    decreases |lines| - n
  {
    if n == |lines| {
      assert lines[..n] == lines;
    } else {
      assert lines[..n + 1][..n] == lines[..n];
      TimestampsErrSticks(lines, n + 1);
    }
  }

  /** Reference definition: the entries of the lines naming `id`, in file order. */
  function SpansOf(lines: seq<Record>, id: Value): seq<Span>
    decreases |lines|
  {
    if lines == [] then []
    else
      var seg := SegmentLine(lines[|lines| - 1]);
      SpansOf(lines[..|lines| - 1], id) + (if seg.Ok? && seg.value.0 == id then [seg.value.1] else [])
  }

  predicate Names(lines: seq<Record>, id: Value)
  {
    exists i :: 0 <= i < |lines| && SegmentLine(lines[i]).Ok? && SegmentLine(lines[i]).value.0 == id
  }

  /** The segment manifest is read without error exactly when every line is. */
  lemma {:induction false} TimestampsAccepts(lines: seq<Record>)
    ensures Timestamps(lines).Ok? <==> forall i :: 0 <= i < |lines| ==> SegmentLine(lines[i]).Ok?
    decreases |lines|
  {
    if lines != [] {
      var n := |lines| - 1;
      var init := lines[..n];
      TimestampsAccepts(init);
      if Timestamps(init).Err? {
        var i :| 0 <= i < n && SegmentLine(init[i]).Err?;
        assert init[i] == lines[i];
      } else if Timestamps(lines).Ok? {
        forall i | 0 <= i < |lines| ensures SegmentLine(lines[i]).Ok? {
          if i < n { assert init[i] == lines[i]; }
        }
      }
    }
  }

  /** Once it is read, the sessions are exactly the ids the lines name, and
      each holds the ranges of its own lines in file order. */
  lemma {:induction false} TimestampsContents(lines: seq<Record>)
    requires Timestamps(lines).Ok?
    ensures forall id :: (id in Timestamps(lines).value <==> Names(lines, id))
                      && (id in Timestamps(lines).value ==> Timestamps(lines).value[id] == SpansOf(lines, id))
    decreases |lines|
  {
    if lines != [] {
      var n := |lines| - 1;
      var init := lines[..n];
      TimestampsContents(init);
      var seg := SegmentLine(lines[n]).value;
      forall id ensures (id in Timestamps(lines).value <==> Names(lines, id))
                     && (id in Timestamps(lines).value ==> Timestamps(lines).value[id] == SpansOf(lines, id))
      {
        NamesSnoc(lines, id);
        if id == seg.0 && !Names(init, id) {
          SpansOfUnnamed(init, id);
        }
      }
    }
  }

  /** The ids named by a manifest are those of the lines before the last one
      and the last line's own. */
  lemma NamesSnoc(lines: seq<Record>, id: Value)
    requires lines != []
    ensures Names(lines, id) <==>
      (|| Names(lines[..|lines| - 1], id)
       || (SegmentLine(lines[|lines| - 1]).Ok? && SegmentLine(lines[|lines| - 1]).value.0 == id))
  {
    var n := |lines| - 1;
    var init := lines[..n];
    if Names(lines, id) {
      var i :| 0 <= i < |lines| && SegmentLine(lines[i]).Ok? && SegmentLine(lines[i]).value.0 == id;
      if i < n { assert init[i] == lines[i]; }
    }
    if Names(init, id) {
      var i :| 0 <= i < n && SegmentLine(init[i]).Ok? && SegmentLine(init[i]).value.0 == id;
      assert init[i] == lines[i];
    }
  }

  lemma {:induction false} SpansOfUnnamed(lines: seq<Record>, id: Value)
    requires !Names(lines, id)
    ensures SpansOf(lines, id) == []
    decreases |lines|
  {
    if lines != [] {
      var n := |lines| - 1;
      assert forall i :: 0 <= i < n ==> lines[..n][i] == lines[i];
      SpansOfUnnamed(lines[..n], id);
    }
  }
}
