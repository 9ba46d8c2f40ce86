/**
 * The diarized-transcript reassembly of the Scribe provider, as a specification:
 * which response words count, how speakers are numbered, how consecutive words of
 * one speaker are merged into a segment, which label each segment receives, and how
 * the segments are rendered as "label: text" lines.
 *
 * The imperative two-pass loop that computes this is `Scribe.Reassemble`; it is
 * proved to produce `Diarize(words)` and `Render(Diarize(words))`.
 */
module Transcript {
  import opened Decimal

  /** The `speaker_id` field of a response word: missing, JSON null, or a string. */
  datatype SpeakerField = Absent | Null | Id(id: string)

  /** One element of the response's `words` list (`type`, `text`, `speaker_id`). */
  datatype Word = Word(kind: string, text: string, speakerId: SpeakerField)

  /** A speaker as a dictionary key: Python's `None` or a string. */
  datatype SpeakerKey = NoneKey | Named(name: string)

  /** A word token that survived the `type == "word"` filter, with its speaker key. */
  datatype Token = Token(speaker: SpeakerKey, text: string)

  /** A run of consecutive tokens of one speaker. */
  datatype Run = Run(speaker: SpeakerKey, texts: seq<string>)

  /** One output segment: the pair `(speaker_label, text)`. */
  datatype Segment = Segment(speakerLabel: string, text: string)

  /** The speaker assumed for a word without a `speaker_id` key. */
  const DefaultSpeaker: string := "speaker_0"

  /** The label `speaker_map.get` falls back to for an unknown speaker. */
  const FallbackLabel: string := "speaker_1"

  /** The token type that carries text; every other type is skipped. */
  const WordType: string := "word"

  predicate IsWordToken(w: Word) { w.kind == WordType }

  /** `word.get("speaker_id", "speaker_0")`. */
  function KeyOf(w: Word): SpeakerKey
  {
    match w.speakerId
    case Absent => Named(DefaultSpeaker)
    case Null => NoneKey
    case Id(s) => Named(s)
  }

  function TokenOf(w: Word): Token { Token(KeyOf(w), w.text) }

  /** The word tokens of a response, in order, with their speakers. */
  function Tokens(words: seq<Word>): (ts: seq<Token>)
    ensures |ts| <= |words|
  {
    if words == [] then []
    else
      var w := words[|words| - 1];
      Tokens(words[..|words| - 1]) + (if IsWordToken(w) then [TokenOf(w)] else [])
  }

  function Speakers(ts: seq<Token>): (ks: seq<SpeakerKey>)
  {
    seq(|ts|, i requires 0 <= i < |ts| => ts[i].speaker)
  }

  function Texts(ts: seq<Token>): (xs: seq<string>)
  {
    seq(|ts|, i requires 0 <= i < |ts| => ts[i].text)
  }

  predicate NoDuplicates<T(==)>(s: seq<T>)
  {
    forall i, j :: 0 <= i < j < |s| ==> s[i] != s[j]
  }

  /** The position of the first occurrence of `k` in `ks`. */
  function FirstIndex(ks: seq<SpeakerKey>, k: SpeakerKey): (r: nat)
    requires k in ks
    ensures r < |ks| && ks[r] == k && k !in ks[..r]
  {
    if k in ks[..|ks| - 1] then FirstIndex(ks[..|ks| - 1], k) else |ks| - 1
  }

  /**
   * The keys of the first-utterance dictionary, in insertion order: each speaker
   * once, where it first speaks.
   */
  function SpeakerOrder(ks: seq<SpeakerKey>): seq<SpeakerKey>
  {
    if ks == [] then []
    else
      var order := SpeakerOrder(ks[..|ks| - 1]);
      var k := ks[|ks| - 1];
      if k in order then order else order + [k]
  }

  /** `f"speaker_{i+1}"`. */
  function SpeakerLabel(i: nat): string
  {
    "speaker_" + Show(i + 1)
  }

  /** `{spk: f"speaker_{i+1}" for i, spk in enumerate(order)}`, inserted left to right. */
  function SpeakerMap(order: seq<SpeakerKey>): map<SpeakerKey, string>
  {
    if order == [] then map[]
    else SpeakerMap(order[..|order| - 1])[order[|order| - 1] := SpeakerLabel(|order| - 1)]
  }

  /** `speaker_map.get(k, "speaker_1")`. */
  function LabelFor(m: map<SpeakerKey, string>, k: SpeakerKey): string
  {
    if k in m then m[k] else FallbackLabel
  }

  /** The maximal runs of consecutive same-speaker tokens, built left to right. */
  function Runs(ts: seq<Token>): (rs: seq<Run>)
    ensures |rs| <= |ts|
    ensures rs == [] <==> ts == []
  {
    if ts == [] then []
    else
      var rs := Runs(ts[..|ts| - 1]);
      var t := ts[|ts| - 1];
      if rs != [] && rs[|rs| - 1].speaker == t.speaker
      then rs[..|rs| - 1] + [Run(t.speaker, rs[|rs| - 1].texts + [t.text])]
      else rs + [Run(t.speaker, [t.text])]
  }

  /** The tokens a run stands for. */
  function RunTokens(r: Run): seq<Token>
  {
    seq(|r.texts|, i requires 0 <= i < |r.texts| => Token(r.speaker, r.texts[i]))
  }

  /** The tokens a sequence of runs stands for: the inverse of `Runs`. */
  function Expand(rs: seq<Run>): seq<Token>
  {
    if rs == [] then [] else Expand(rs[..|rs| - 1]) + RunTokens(rs[|rs| - 1])
  }

  /** Every run holds a word, and neighbouring runs belong to different speakers. */
  predicate Maximal(rs: seq<Run>)
  {
    && (forall k :: 0 <= k < |rs| ==> rs[k].texts != [])
    && (forall k :: 0 < k < |rs| ==> rs[k - 1].speaker != rs[k].speaker)
  }

  /** Python's `sep.join(parts)`. */
  function JoinWith(sep: string, parts: seq<string>): string
  {
    if |parts| == 0 then ""
    else if |parts| == 1 then parts[0]
    else JoinWith(sep, parts[..|parts| - 1]) + sep + parts[|parts| - 1]
  }

  lemma {:induction false} JoinWithTwo(sep: string, a: string, b: string)
    ensures JoinWith(sep, [a, b]) == a + sep + b
  {
    assert [a, b][..1] == [a];
  }

  /**
   * The segments the second pass emits for the runs: a run is flushed when the
   * next run's first word arrives, under the label of that incoming speaker; the
   * last run is flushed after the loop, under its own speaker's label.
   */
  function Flush(rs: seq<Run>, m: map<SpeakerKey, string>): (segs: seq<Segment>)
    ensures |segs| == |rs|
  {
    if |rs| == 0 then []
    else if |rs| == 1 then [Segment(LabelFor(m, rs[0].speaker), JoinWith(" ", rs[0].texts))]
    else [Segment(LabelFor(m, rs[1].speaker), JoinWith(" ", rs[0].texts))] + Flush(rs[1..], m)
  }

  /** The speaker labels of one response. */
  function ResponseLabels(ts: seq<Token>): map<SpeakerKey, string>
  {
    SpeakerMap(SpeakerOrder(Speakers(ts)))
  }

  /** The `segments` list built from a response's `words`. */
  function Diarize(words: seq<Word>): seq<Segment>
  {
    var ts := Tokens(words);
    Flush(Runs(ts), ResponseLabels(ts))
  }

  /** `f"{label}: {text}"`. */
  function Line(s: Segment): string { s.speakerLabel + ": " + s.text }

  function Lines(segs: seq<Segment>): seq<string>
  {
    seq(|segs|, i requires 0 <= i < |segs| => Line(segs[i]))
  }

  /** `"\n".join(output_lines)`. */
  function Render(segs: seq<Segment>): string
  {
    JoinWith("\n", Lines(segs))
  }

  function SegmentTexts(segs: seq<Segment>): seq<string>
  {
    seq(|segs|, i requires 0 <= i < |segs| => segs[i].text)
  }

  // ---------------------------------------------------------------------------
  // Unfolding steps used by the loops of `Scribe.Reassemble`.

  lemma {:induction false} TokensSnoc(words: seq<Word>, w: Word)
    ensures Tokens(words + [w]) == Tokens(words) + (if IsWordToken(w) then [TokenOf(w)] else [])
  {
    assert (words + [w])[..|words|] == words;
  }

  lemma {:induction false} SpeakerOrderSnoc(ts: seq<Token>, t: Token)
    ensures SpeakerOrder(Speakers(ts + [t])) ==
      var order := SpeakerOrder(Speakers(ts));
      if t.speaker in order then order else order + [t.speaker]
  {
    var ks := Speakers(ts + [t]);
    assert ks[..|ks| - 1] == Speakers(ts);
  }

  lemma {:induction false} RunsSnoc(ts: seq<Token>, t: Token)
    ensures Runs(ts + [t]) ==
      var rs := Runs(ts);
      if rs != [] && rs[|rs| - 1].speaker == t.speaker
      then rs[..|rs| - 1] + [Run(t.speaker, rs[|rs| - 1].texts + [t.text])]
      else rs + [Run(t.speaker, [t.text])]
  {
    assert (ts + [t])[..|ts|] == ts;
  }

  // ---------------------------------------------------------------------------
  // Which words count.

  /** The token list of a concatenation is the concatenation of the token lists. */
  lemma {:induction false} TokensAppend(a: seq<Word>, b: seq<Word>)
    ensures Tokens(a + b) == Tokens(a) + Tokens(b)
  {
    if b == [] {
      assert a + b == a;
    } else {
      var b' := b[..|b| - 1];
      var w := b[|b| - 1];
      assert b == b' + [w];
      assert a + b == (a + b') + [w];
      TokensAppend(a, b');
      TokensSnoc(a + b', w);
      TokensSnoc(b', w);
    }
  }

  /** The tokens of `before + [w] + after`, around the one word `w`. */
  lemma {:induction false} TokensAround(before: seq<Word>, w: Word, after: seq<Word>)
    ensures Tokens(before + [w] + after) == Tokens(before) + Tokens([w]) + Tokens(after)
    ensures Tokens([w]) == if IsWordToken(w) then [TokenOf(w)] else []
  {
    TokensAppend(before + [w], after);
    TokensAppend(before, [w]);
    TokensSnoc([], w);
    assert [] + [w] == [w];
  }

  /**
   * A token whose type is not "word" changes nothing, wherever it stands: it adds
   * no text, starts or ends no run and is given no label.
   */
  lemma {:induction false} NonWordTokensIgnored(before: seq<Word>, w: Word, after: seq<Word>)
    requires !IsWordToken(w)
    ensures Tokens(before + [w] + after) == Tokens(before + after)
    ensures Diarize(before + [w] + after) == Diarize(before + after)
  {
    TokensAround(before, w, after);
    TokensAppend(before, after);
    assert Tokens(before + [w] + after) == Tokens(before + after);
  }

  /** A word without a `speaker_id` key is a word of speaker "speaker_0". */
  lemma {:induction false} MissingSpeakerIsSpeakerZero(before: seq<Word>, kind: string, text: string, after: seq<Word>)
    ensures Diarize(before + [Word(kind, text, Absent)] + after)
         == Diarize(before + [Word(kind, text, Id(DefaultSpeaker))] + after)
  {
    var w1 := Word(kind, text, Absent);
    var w2 := Word(kind, text, Id(DefaultSpeaker));
    TokensAround(before, w1, after);
    TokensAround(before, w2, after);
    assert Tokens(before + [w1] + after) == Tokens(before + [w2] + after);
  }

  // ---------------------------------------------------------------------------
  // Speaker numbering.

  lemma {:induction false} FirstIndexSnoc(ks: seq<SpeakerKey>, x: SpeakerKey, k: SpeakerKey)
    requires k in ks
    ensures FirstIndex(ks + [x], k) == FirstIndex(ks, k)
  {
    assert (ks + [x])[..|ks|] == ks;
  }

  /**
   * The dictionary keys hold every speaker exactly once, and in the order of each
   * speaker's first word.
   */
  lemma {:induction false} SpeakerOrderIsFirstAppearance(ks: seq<SpeakerKey>)
    ensures NoDuplicates(SpeakerOrder(ks))
    ensures forall k :: k in SpeakerOrder(ks) <==> k in ks
    ensures forall i, j :: 0 <= i < j < |SpeakerOrder(ks)| ==>
              FirstIndex(ks, SpeakerOrder(ks)[i]) < FirstIndex(ks, SpeakerOrder(ks)[j])
  {
    if ks != [] {
      var ks' := ks[..|ks| - 1];
      var k := ks[|ks| - 1];
      assert ks == ks' + [k];
      SpeakerOrderIsFirstAppearance(ks');
      var o' := SpeakerOrder(ks');
      var o := SpeakerOrder(ks);
      forall x | x in ks'
        ensures FirstIndex(ks, x) == FirstIndex(ks', x)
      {
        FirstIndexSnoc(ks', k, x);
      }
      if k !in o' {
        assert o == o' + [k];
        assert k !in ks';
        assert FirstIndex(ks, k) == |ks'|;
        forall i | 0 <= i < |o'|
          ensures FirstIndex(ks, o[i]) < FirstIndex(ks, k)
        {
          assert o[i] == o'[i] && o'[i] in ks';
        }
      }
    }
  }

  /** With distinct keys, key number i is mapped to label i + 1 and nothing else is mapped. */
  lemma {:induction false} SpeakerMapLabels(order: seq<SpeakerKey>)
    requires NoDuplicates(order)
    ensures forall k :: k in SpeakerMap(order) <==> k in order
    ensures forall i :: 0 <= i < |order| ==> LabelFor(SpeakerMap(order), order[i]) == SpeakerLabel(i)
  {
    if order != [] {
      var o' := order[..|order| - 1];
      var k := order[|order| - 1];
      assert order == o' + [k];
      SpeakerMapLabels(o');
      forall i | 0 <= i < |o'|
        ensures o'[i] != k
      {
        assert order[i] == o'[i];
      }
    }
  }

  /** Different numbers give different labels. */
  lemma {:induction false} SpeakerLabelInjective(i: nat, j: nat)
    ensures SpeakerLabel(i) == SpeakerLabel(j) ==> i == j
  {
    if SpeakerLabel(i) == SpeakerLabel(j) {
      var p := "speaker_";
      assert Show(i + 1) == SpeakerLabel(i)[|p|..];
      assert Show(j + 1) == SpeakerLabel(j)[|p|..];
      ShowInjective(i + 1, j + 1);
    }
  }

  /**
   * The label map of a response: its keys are exactly the response's speakers (so
   * the "speaker_1" fallback is never used), the speaker whose first word comes
   * i-th is labelled speaker_{i+1}, and different speakers get different labels.
   */
  lemma {:induction false} ResponseLabelsSound(ts: seq<Token>)
    ensures forall k :: k in ResponseLabels(ts) <==> k in Speakers(ts)
    ensures forall t :: t in ts ==> t.speaker in ResponseLabels(ts)
    ensures forall i :: 0 <= i < |SpeakerOrder(Speakers(ts))| ==>
              LabelFor(ResponseLabels(ts), SpeakerOrder(Speakers(ts))[i]) == SpeakerLabel(i)
    ensures forall k1, k2 :: k1 in ResponseLabels(ts) && k2 in ResponseLabels(ts) && k1 != k2 ==>
              ResponseLabels(ts)[k1] != ResponseLabels(ts)[k2]
  {
    var ks := Speakers(ts);
    var o := SpeakerOrder(ks);
    SpeakerOrderIsFirstAppearance(ks);
    SpeakerMapLabels(o);
    SpeakerMapInjective(o);
    SpeakersOfTokens(ts);
  }

  /** Distinct keys of the label map carry distinct labels. */
  lemma {:induction false} SpeakerMapInjective(order: seq<SpeakerKey>)
    requires NoDuplicates(order)
    ensures forall k1, k2 :: k1 in SpeakerMap(order) && k2 in SpeakerMap(order) && k1 != k2 ==>
              SpeakerMap(order)[k1] != SpeakerMap(order)[k2]
  {
    var m := SpeakerMap(order);
    SpeakerMapLabels(order);
    forall k1, k2 | k1 in m && k2 in m && k1 != k2
      ensures m[k1] != m[k2]
    {
      var i :| 0 <= i < |order| && order[i] == k1;
      var j :| 0 <= j < |order| && order[j] == k2;
      assert LabelFor(m, k1) == m[k1] && LabelFor(m, k2) == m[k2];
      SpeakerLabelInjective(i, j);
    }
  }

  lemma {:induction false} SpeakersOfTokens(ts: seq<Token>)
    ensures forall t :: t in ts ==> t.speaker in Speakers(ts)
  {
    forall t | t in ts
      ensures t.speaker in Speakers(ts)
    {
      var p :| 0 <= p < |ts| && ts[p] == t;
      assert Speakers(ts)[p] == t.speaker;
    }
  }

  // ---------------------------------------------------------------------------
  // Runs.

  /** Extending the last run or opening a new one keeps the runs maximal. */
  lemma {:induction false} RunsSnocMaximal(rs: seq<Run>, t: Token)
    requires Maximal(rs)
    ensures rs != [] && rs[|rs| - 1].speaker == t.speaker ==>
              Maximal(rs[..|rs| - 1] + [Run(t.speaker, rs[|rs| - 1].texts + [t.text])])
    ensures rs == [] || rs[|rs| - 1].speaker != t.speaker ==>
              Maximal(rs + [Run(t.speaker, [t.text])])
  {
    if rs != [] && rs[|rs| - 1].speaker == t.speaker {
      var rs2 := rs[..|rs| - 1] + [Run(t.speaker, rs[|rs| - 1].texts + [t.text])];
      forall k | 0 <= k < |rs2| ensures rs2[k].texts != [] {
        if k < |rs| - 1 { assert rs2[k] == rs[k]; }
      }
      forall k | 0 < k < |rs2| ensures rs2[k - 1].speaker != rs2[k].speaker {
        assert rs2[k - 1] == rs[k - 1] && rs2[k].speaker == rs[k].speaker;
      }
    } else {
      var rs2 := rs + [Run(t.speaker, [t.text])];
      forall k | 0 <= k < |rs2| ensures rs2[k].texts != [] {
        if k < |rs| { assert rs2[k] == rs[k]; }
      }
      forall k | 0 < k < |rs2| ensures rs2[k - 1].speaker != rs2[k].speaker {
        assert rs2[k - 1] == rs[k - 1];
        if k < |rs| { assert rs2[k] == rs[k]; }
      }
    }
  }

  /** `Runs` produces maximal runs. */
  lemma {:induction false} RunsMaximal(ts: seq<Token>)
    ensures Maximal(Runs(ts))
  {
    if ts != [] {
      var ts' := ts[..|ts| - 1];
      var t := ts[|ts| - 1];
      assert ts == ts' + [t];
      RunsMaximal(ts');
      RunsSnoc(ts', t);
      RunsSnocMaximal(Runs(ts'), t);
    }
  }

  lemma {:induction false} ExpandSnoc(rs: seq<Run>, r: Run)
    ensures Expand(rs + [r]) == Expand(rs) + RunTokens(r)
  {
    assert (rs + [r])[..|rs|] == rs;
  }

  /** Expanding the runs gives back the tokens: nothing dropped, duplicated or reordered. */
  lemma {:induction false} ExpandRuns(ts: seq<Token>)
    ensures Expand(Runs(ts)) == ts
  {
    if ts != [] {
      var ts' := ts[..|ts| - 1];
      var t := ts[|ts| - 1];
      assert ts == ts' + [t];
      ExpandRuns(ts');
      RunsSnoc(ts', t);
      var rs := Runs(ts');
      if rs != [] && rs[|rs| - 1].speaker == t.speaker {
        ExpandGrow(rs, t);
      } else {
        ExpandOpen(rs, t);
      }
    }
  }

  /** Adding a token to the last run adds that token to the expansion. */
  lemma {:induction false} ExpandGrow(rs: seq<Run>, t: Token)
    requires rs != [] && rs[|rs| - 1].speaker == t.speaker
    ensures Expand(rs[..|rs| - 1] + [Run(t.speaker, rs[|rs| - 1].texts + [t.text])]) == Expand(rs) + [t]
  {
    var last := rs[|rs| - 1];
    var init := rs[..|rs| - 1];
    assert rs == init + [last];
    var grown := Run(t.speaker, last.texts + [t.text]);
    ExpandSnoc(init, last);
    ExpandSnoc(init, grown);
    RunTokensSnoc(t.speaker, last.texts, t.text);
    assert Run(t.speaker, last.texts) == last && Token(t.speaker, t.text) == t;
  }

  /** Opening a run with a token adds that token to the expansion. */
  lemma {:induction false} ExpandOpen(rs: seq<Run>, t: Token)
    ensures Expand(rs + [Run(t.speaker, [t.text])]) == Expand(rs) + [t]
  {
    ExpandSnoc(rs, Run(t.speaker, [t.text]));
    assert RunTokens(Run(t.speaker, [t.text])) == [t];
  }

  lemma {:induction false} RunTokensSnoc(k: SpeakerKey, texts: seq<string>, x: string)
    ensures RunTokens(Run(k, texts + [x])) == RunTokens(Run(k, texts)) + [Token(k, x)]
  {
  }

  /** Appending the tokens of a run whose speaker differs from the last run's adds exactly that run. */
  lemma {:induction false} RunsAppendRun(ts: seq<Token>, r: Run)
    requires r.texts != []
    requires Runs(ts) == [] || Runs(ts)[|Runs(ts)| - 1].speaker != r.speaker
    ensures Runs(ts + RunTokens(r)) == Runs(ts) + [r]
    decreases |r.texts|
  {
    var n := |r.texts|;
    var init, x := r.texts[..n - 1], r.texts[n - 1];
    var t := Token(r.speaker, x);
    assert r.texts == init + [x];
    RunTokensSnoc(r.speaker, init, x);
    if n == 1 {
      assert RunTokens(Run(r.speaker, init)) == [];
      RunsSnoc(ts, t);
    } else {
      var r' := Run(r.speaker, init);
      var us := ts + RunTokens(r');
      assert ts + RunTokens(r) == us + [t];
      RunsAppendRun(ts, r');
      RunsSnoc(us, t);
      var rs := Runs(ts) + [r'];
      assert Runs(us) == rs;
      assert rs[..|rs| - 1] == Runs(ts);
    }
  }

  /** Maximal runs are determined by their tokens: `Runs` inverts `Expand` on them. */
  lemma {:induction false} RunsExpand(rs: seq<Run>)
    requires Maximal(rs)
    ensures Runs(Expand(rs)) == rs
  {
    if rs != [] {
      var init := rs[..|rs| - 1];
      var last := rs[|rs| - 1];
      assert rs == init + [last];
      assert Maximal(init);
      RunsExpand(init);
      ExpandSnoc(init, last);
      RunsAppendRun(Expand(init), last);
    }
  }

  /** The first token of run k is one of the tokens the runs stand for. */
  lemma {:induction false} RunTokensInExpand(rs: seq<Run>, k: nat)
    requires k < |rs| && rs[k].texts != []
    ensures Token(rs[k].speaker, rs[k].texts[0]) in Expand(rs)
  {
    var init := rs[..|rs| - 1];
    ExpandSnoc(init, rs[|rs| - 1]);
    assert rs == init + [rs[|rs| - 1]];
    if k < |rs| - 1 {
      RunTokensInExpand(init, k);
    } else {
      assert RunTokens(rs[k])[0] == Token(rs[k].speaker, rs[k].texts[0]);
    }
  }

  /** Every run's speaker has a label of its own. */
  lemma {:induction false} RunSpeakersLabelled(ts: seq<Token>)
    ensures forall k :: 0 <= k < |Runs(ts)| ==> Runs(ts)[k].speaker in ResponseLabels(ts)
  {
    var rs := Runs(ts);
    RunsMaximal(ts);
    ExpandRuns(ts);
    ResponseLabelsSound(ts);
    forall k | 0 <= k < |rs|
      ensures rs[k].speaker in ResponseLabels(ts)
    {
      RunTokensInExpand(rs, k);
    }
  }

  // ---------------------------------------------------------------------------
  // Segments.

  /**
   * The second pass yields one segment per run, holding that run's words joined by
   * single spaces; every segment but the last is labelled with the NEXT run's
   * speaker, and the last with its own.
   */
  lemma {:induction false} FlushLabels(rs: seq<Run>, m: map<SpeakerKey, string>)
    ensures |Flush(rs, m)| == |rs|
    ensures forall k :: 0 <= k < |rs| ==> Flush(rs, m)[k].text == JoinWith(" ", rs[k].texts)
    ensures forall k :: 0 <= k < |rs| - 1 ==> Flush(rs, m)[k].speakerLabel == LabelFor(m, rs[k + 1].speaker)
    ensures rs != [] ==> Flush(rs, m)[|rs| - 1].speakerLabel == LabelFor(m, rs[|rs| - 1].speaker)
  {
    if |rs| > 1 {
      FlushLabels(rs[1..], m);
      var f := Flush(rs, m);
      assert f == [Segment(LabelFor(m, rs[1].speaker), JoinWith(" ", rs[0].texts))] + Flush(rs[1..], m);
      forall k | 1 <= k < |rs|
        ensures f[k] == Flush(rs[1..], m)[k - 1] && rs[k] == rs[1..][k - 1]
      {
      }
    }
  }

  /** Segment k of the flushed runs, as FlushLabels states it, for one index. */
  lemma {:induction false} FlushAt(rs: seq<Run>, m: map<SpeakerKey, string>, k: int)
    requires 0 <= k < |rs|
    ensures Flush(rs, m)[k]
         == Segment(LabelFor(m, if k < |rs| - 1 then rs[k + 1].speaker else rs[k].speaker),
                    JoinWith(" ", rs[k].texts))
  {
    FlushLabels(rs, m);
  }

  /** Adding a word to the last run leaves the segments already flushed unchanged. */
  lemma {:induction false} FlushPrefixExtend(rs: seq<Run>, x: string, m: map<SpeakerKey, string>)
    requires rs != []
    ensures var last := rs[|rs| - 1];
            var rs' := rs[..|rs| - 1] + [Run(last.speaker, last.texts + [x])];
            Flush(rs', m)[..|rs| - 1] == Flush(rs, m)[..|rs| - 1]
  {
    var last := rs[|rs| - 1];
    var rs' := rs[..|rs| - 1] + [Run(last.speaker, last.texts + [x])];
    forall k | 0 <= k < |rs| - 1
      ensures Flush(rs', m)[k] == Flush(rs, m)[k]
    {
      FlushAt(rs, m, k);
      FlushAt(rs', m, k);
      assert rs'[k] == rs[k] && rs'[k + 1].speaker == rs[k + 1].speaker;
    }
  }

  /** Opening a new run flushes the previous one under the new run's speaker's label. */
  lemma {:induction false} FlushPrefixAppend(rs: seq<Run>, r: Run, m: map<SpeakerKey, string>)
    requires rs != []
    ensures Flush(rs + [r], m)[..|rs|]
         == Flush(rs, m)[..|rs| - 1] + [Segment(LabelFor(m, r.speaker), JoinWith(" ", rs[|rs| - 1].texts))]
  {
    var rs' := rs + [r];
    var flushed := Flush(rs', m)[..|rs|];
    var expected := Flush(rs, m)[..|rs| - 1] + [Segment(LabelFor(m, r.speaker), JoinWith(" ", rs[|rs| - 1].texts))];
    forall k | 0 <= k < |rs|
      ensures flushed[k] == expected[k]
    {
      FlushAt(rs', m, k);
      assert rs'[k] == rs[k] && rs'[k + 1] == if k < |rs| - 1 then rs[k + 1] else r;
      if k < |rs| - 1 {
        FlushAt(rs, m, k);
      }
    }
    assert flushed == expected;
  }

  /** The last segment is the last run under its own speaker's label. */
  lemma {:induction false} FlushLast(rs: seq<Run>, m: map<SpeakerKey, string>)
    requires rs != []
    ensures Flush(rs, m)
         == Flush(rs, m)[..|rs| - 1] + [Segment(LabelFor(m, rs[|rs| - 1].speaker), JoinWith(" ", rs[|rs| - 1].texts))]
  {
    FlushAt(rs, m, |rs| - 1);
  }

  lemma LinesSnoc(segs: seq<Segment>, s: Segment)
    ensures Lines(segs + [s]) == Lines(segs) + [Line(s)]
  {
  }

  /**
   * The segments of a response, stated against its maximal runs: one segment per
   * run, each run's speaker labelled, and the labels shifted by one run.
   */
  lemma {:induction false} DiarizeSegments(words: seq<Word>)
    ensures Maximal(Runs(Tokens(words))) && Expand(Runs(Tokens(words))) == Tokens(words)
    ensures |Diarize(words)| == |Runs(Tokens(words))|
    ensures forall k :: 0 <= k < |Runs(Tokens(words))| ==>
              Runs(Tokens(words))[k].speaker in ResponseLabels(Tokens(words))
    ensures forall k :: 0 <= k < |Diarize(words)| ==>
              Diarize(words)[k].text == JoinWith(" ", Runs(Tokens(words))[k].texts)
    ensures forall k :: 0 <= k < |Diarize(words)| - 1 ==>
              Diarize(words)[k].speakerLabel == LabelFor(ResponseLabels(Tokens(words)), Runs(Tokens(words))[k + 1].speaker)
    ensures Diarize(words) != [] ==>
              Diarize(words)[|Diarize(words)| - 1].speakerLabel
              == LabelFor(ResponseLabels(Tokens(words)), Runs(Tokens(words))[|Diarize(words)| - 1].speaker)
  {
    var ts := Tokens(words);
    RunsMaximal(ts);
    ExpandRuns(ts);
    FlushLabels(Runs(ts), ResponseLabels(ts));
    RunSpeakersLabelled(ts);
  }

  /** A response without word tokens gives no segments and the empty string, and only such a response does. */
  lemma {:induction false} EmptyResponse(words: seq<Word>)
    ensures Diarize(words) == [] <==> Tokens(words) == []
    ensures Tokens(words) == [] ==> Render(Diarize(words)) == ""
  {
    FlushLabels(Runs(Tokens(words)), ResponseLabels(Tokens(words)));
  }

  lemma {:induction false} JoinWithAppend(sep: string, a: seq<string>, b: seq<string>)
    requires a != [] && b != []
    ensures JoinWith(sep, a + b) == JoinWith(sep, a) + sep + JoinWith(sep, b)
    decreases |b|
  {
    if |b| == 1 {
      assert (a + b)[..|a|] == a;
    } else {
      var b' := b[..|b| - 1];
      assert a + b == (a + b') + [b[|b| - 1]];
      assert (a + b)[..|a + b| - 1] == a + b';
      JoinWithAppend(sep, a, b');
    }
  }

  /** The texts of a run's tokens are the run's texts. */
  lemma {:induction false} TextsOfExpandSnoc(rs: seq<Run>, r: Run)
    ensures Texts(Expand(rs + [r])) == Texts(Expand(rs)) + r.texts
  {
    ExpandSnoc(rs, r);
    assert Texts(RunTokens(r)) == r.texts;
    var a, b := Expand(rs), RunTokens(r);
    assert Texts(a + b) == Texts(a) + Texts(b);
  }

  /** Each run's words joined by single spaces: the text of the run's segment. */
  function RunTexts(rs: seq<Run>): seq<string>
  {
    seq(|rs|, i requires 0 <= i < |rs| => JoinWith(" ", rs[i].texts))
  }

  /** Joining the per-run texts gives the same string as joining all the words. */
  lemma {:induction false} JoinRuns(rs: seq<Run>)
    requires forall k :: 0 <= k < |rs| ==> rs[k].texts != []
    ensures JoinWith(" ", RunTexts(rs)) == JoinWith(" ", Texts(Expand(rs)))
  {
    if rs != [] {
      var init := rs[..|rs| - 1];
      var last := rs[|rs| - 1];
      assert rs == init + [last];
      TextsOfExpandSnoc(init, last);
      if init == [] {
        assert Texts(Expand(rs)) == last.texts;
      } else {
        JoinRuns(init);
        assert RunTexts(rs)[..|rs| - 1] == RunTexts(init);
        RunTokensInExpand(init, 0);
        JoinWithAppend(" ", Texts(Expand(init)), last.texts);
      }
    }
  }

  /** The segment texts are the runs' texts, whatever the labels. */
  lemma {:induction false} SegmentTextsOfFlush(rs: seq<Run>, m: map<SpeakerKey, string>)
    ensures SegmentTexts(Flush(rs, m)) == RunTexts(rs)
  {
    FlushLabels(rs, m);
    var texts := SegmentTexts(Flush(rs, m));
    forall i | 0 <= i < |rs| ensures texts[i] == RunTexts(rs)[i] {
    }
  }

  /**
   * Joining the segment texts with single spaces gives exactly the word texts of the
   * response, in their original order, joined with single spaces.
   */
  lemma {:induction false} SegmentTextsPreserveWords(words: seq<Word>)
    ensures JoinWith(" ", SegmentTexts(Diarize(words))) == JoinWith(" ", Texts(Tokens(words)))
  {
    var ts := Tokens(words);
    var rs := Runs(ts);
    SegmentTextsOfFlush(rs, ResponseLabels(ts));
    RunsMaximal(ts);
    JoinRuns(rs);
    ExpandRuns(ts);
  }

  /** A run's tokens, when every token has the run's speaker. */
  lemma {:induction false} RunOfTexts(ts: seq<Token>, k: SpeakerKey)
    requires forall i :: 0 <= i < |ts| ==> ts[i].speaker == k
    ensures RunTokens(Run(k, Texts(ts))) == ts
  {
    var us := RunTokens(Run(k, Texts(ts)));
    assert |us| == |ts|;
    forall i | 0 <= i < |ts| ensures us[i] == ts[i] {
    }
  }

  /** Tokens of a single speaker form a single run. */
  lemma {:induction false} SingleSpeakerRuns(ts: seq<Token>, k: SpeakerKey)
    requires ts != []
    requires forall i :: 0 <= i < |ts| ==> ts[i].speaker == k
    ensures Runs(ts) == [Run(k, Texts(ts))]
  {
    var r := Run(k, Texts(ts));
    RunOfTexts(ts, k);
    ExpandSnoc([], r);
    assert [] + [r] == [r];
    assert Expand([r]) == ts;
    assert Maximal([r]);
    RunsExpand([r]);
  }

  /** Keys of a single speaker number that speaker alone. */
  lemma {:induction false} SingleSpeakerOrder(ks: seq<SpeakerKey>, k: SpeakerKey)
    requires ks != []
    requires forall i :: 0 <= i < |ks| ==> ks[i] == k
    ensures SpeakerOrder(ks) == [k]
  {
    var ks' := ks[..|ks| - 1];
    assert ks == ks' + [k];
    if ks' != [] {
      SingleSpeakerOrder(ks', k);
    }
  }

  /** A response spoken by one speaker gives one segment, labelled speaker_1, holding every word. */
  lemma {:induction false} SingleSpeaker(words: seq<Word>, k: SpeakerKey)
    requires Tokens(words) != []
    requires forall t :: t in Tokens(words) ==> t.speaker == k
    ensures Diarize(words) == [Segment("speaker_1", JoinWith(" ", Texts(Tokens(words))))]
  {
    var ts := Tokens(words);
    forall i | 0 <= i < |ts| ensures ts[i].speaker == k {
      assert ts[i] in ts;
    }
    SingleSpeakerRuns(ts, k);
    SingleSpeakerOrder(Speakers(ts), k);
    assert [k][..0] == [];
    assert SpeakerMap([k]) == SpeakerMap([])[k := SpeakerLabel(0)];
    var m := ResponseLabels(ts);
    assert m == SpeakerMap([k]);
    assert m == map[k := SpeakerLabel(0)];
    assert Show(1) == "1";
    assert SpeakerLabel(0) == "speaker_1";
    assert Diarize(words) == Flush([Run(k, Texts(ts))], m);
  }
}
