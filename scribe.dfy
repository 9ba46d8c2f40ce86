/**
 * The ElevenLabs Scribe provider: the form fields of the speech-to-text request,
 * the missing-key early return, and the two-pass reassembly of the diarized
 * `words` list into speaker segments and "label: text" lines.
 *
 * The HTTP exchange itself is not modelled: `Transcribe` receives the parsed reply
 * (or the failure its `try` block ended in) as a parameter.
 */
module Scribe {
  import opened Wrappers
  import opened Transcript

  /** A value of the request's form data. */
  datatype FormValue = Text(text: string) | Flag(flag: bool) | Number(number: int)

  /** The model every request names. */
  const ModelId: string := "scribe_v1"

  /** The speaker count sent when the caller does not pass one. */
  const DefaultNumSpeakers: int := 2

  /** The form fields a request may carry. */
  const FormKeys: set<string> := {"model_id", "diarize", "num_speakers", "language_code", "prompt"}

  /**
   * The form data of a Scribe request: always the model and diarization, the
   * speaker count exactly when one is given, the language and the prompt exactly
   * when they are non-empty, and nothing else.
   */
  predicate IsScribeForm(data: map<string, FormValue>, numSpeakers: Option<int>,
                         language: Option<string>, prompt: Option<string>)
  {
    && data.Keys <= FormKeys
    && "model_id" in data && data["model_id"] == Text(ModelId)
    && "diarize" in data && data["diarize"] == Flag(true)
    && ("num_speakers" in data <==> numSpeakers.Some?)
    && (numSpeakers.Some? ==> data["num_speakers"] == Number(numSpeakers.value))
    && ("language_code" in data <==> Given(language))
    && (Given(language) ==> data["language_code"] == Text(language.value))
    && ("prompt" in data <==> Given(prompt))
    && (Given(prompt) ==> data["prompt"] == Text(prompt.value))
  }

  /** Fills the request's form data field by field. */
  method BuildRequestData(numSpeakers: Option<int> := Some(DefaultNumSpeakers),
                          language: Option<string> := None, prompt: Option<string> := None)
    returns (data: map<string, FormValue>)
    ensures IsScribeForm(data, numSpeakers, language, prompt)
  {
    data := map[];
    data := data["model_id" := Text(ModelId)];
    data := data["diarize" := Flag(true)];
    if numSpeakers.Some? {
      data := data["num_speakers" := Number(numSpeakers.value)];
    }
    if Given(language) {
      data := data["language_code" := Text(language.value)];
    }
    if Given(prompt) {
      data := data["prompt" := Text(prompt.value)];
    }
  }

  /**
   * The first pass: records each word token's speaker the first time it is seen,
   * as the keys of the first-utterance dictionary are inserted.
   */
  method FirstAppearances(words: seq<Word>) returns (firstSeen: seq<SpeakerKey>)
    ensures firstSeen == SpeakerOrder(Speakers(Tokens(words)))
  {
    firstSeen := [];
    var i := 0;
    while i < |words|
      invariant 0 <= i <= |words|
      invariant firstSeen == SpeakerOrder(Speakers(Tokens(words[..i])))
    {
      var word := words[i];
      assert words[..i + 1] == words[..i] + [word];
      TokensSnoc(words[..i], word);
      if IsWordToken(word) {
        var spk := KeyOf(word);
        assert Tokens(words[..i + 1]) == Tokens(words[..i]) + [TokenOf(word)];
        SpeakerOrderSnoc(Tokens(words[..i]), TokenOf(word));
        if spk !in firstSeen {
          firstSeen := firstSeen + [spk];
        }
      } else {
        assert Tokens(words[..i + 1]) == Tokens(words[..i]);
      }
      i := i + 1;
    }
    assert words[..|words|] == words;
  }

  /**
   * The state of the second pass after the tokens whose runs are `rs`: the open
   * line is the last run, the current speaker is its speaker, and every earlier
   * run has been flushed as `Flush` prescribes.
   */
  ghost predicate Merged(rs: seq<Run>, m: map<SpeakerKey, string>, currentSpeaker: SpeakerKey,
                         currentLine: seq<string>, segments: seq<Segment>)
  {
    && (rs == [] ==> currentLine == [] && segments == [])
    && (rs != [] ==>
          && currentLine == rs[|rs| - 1].texts
          && currentSpeaker == rs[|rs| - 1].speaker
          && segments == Flush(rs, m)[..|rs| - 1])
  }

  /**
   * One word token processed by the second pass keeps `Merged`: a token of another
   * speaker flushes a non-empty open line under the incoming speaker's label and
   * opens a new line; a token of the current speaker extends the open line.
   */
  lemma MergeWord(ts: seq<Token>, t: Token, m: map<SpeakerKey, string>, currentSpeaker: SpeakerKey,
                  currentLine: seq<string>, segments: seq<Segment>)
    requires Merged(Runs(ts), m, currentSpeaker, currentLine, segments)
    ensures Merged(Runs(ts + [t]), m, t.speaker,
                   if currentSpeaker != t.speaker then [t.text] else currentLine + [t.text],
                   if currentSpeaker != t.speaker && currentLine != []
                   then segments + [Segment(LabelFor(m, t.speaker), JoinWith(" ", currentLine))]
                   else segments)
  {
    var rs := Runs(ts);
    RunsSnoc(ts, t);
    if rs == [] {
      var rs' := [Run(t.speaker, [t.text])];
      assert Runs(ts + [t]) == rs';
      assert Flush(rs', m)[..0] == [];
      assert currentLine + [t.text] == [t.text];
    } else if currentSpeaker == t.speaker {
      MergeSameSpeaker(rs, t, m, currentLine, segments);
    } else {
      MergeNewSpeaker(rs, t, m, currentLine, segments);
    }
  }

  /** A token of the open line's speaker extends the open line. */
  lemma MergeSameSpeaker(rs: seq<Run>, t: Token, m: map<SpeakerKey, string>,
                         currentLine: seq<string>, segments: seq<Segment>)
    requires rs != [] && Merged(rs, m, t.speaker, currentLine, segments)
    ensures Merged(rs[..|rs| - 1] + [Run(t.speaker, rs[|rs| - 1].texts + [t.text])], m,
                   t.speaker, currentLine + [t.text], segments)
  {
    FlushPrefixExtend(rs, t.text, m);
  }

  /** A token of another speaker flushes the open line under that speaker's label. */
  lemma MergeNewSpeaker(rs: seq<Run>, t: Token, m: map<SpeakerKey, string>,
                        currentLine: seq<string>, segments: seq<Segment>)
    requires rs != [] && Merged(rs, m, rs[|rs| - 1].speaker, currentLine, segments)
    ensures Merged(rs + [Run(t.speaker, [t.text])], m, t.speaker, [t.text],
                   segments + [Segment(LabelFor(m, t.speaker), JoinWith(" ", currentLine))])
  {
    FlushPrefixAppend(rs, Run(t.speaker, [t.text]), m);
  }

  /** After the last token, flushing the open line under its own speaker's label completes `Flush`. */
  lemma MergeFinish(ts: seq<Token>, m: map<SpeakerKey, string>, currentSpeaker: SpeakerKey,
                    currentLine: seq<string>, segments: seq<Segment>)
    requires Merged(Runs(ts), m, currentSpeaker, currentLine, segments)
    ensures currentLine == [] ==> segments == Flush(Runs(ts), m)
    ensures currentLine != [] ==>
              segments + [Segment(LabelFor(m, currentSpeaker), JoinWith(" ", currentLine))] == Flush(Runs(ts), m)
  {
    var rs := Runs(ts);
    if rs != [] {
      RunsMaximal(ts);
      FlushLast(rs, m);
    }
  }

  /**
   * The second pass: merges consecutive word tokens of one speaker into a line,
   * flushes the line when a word of another speaker arrives (labelled with that
   * incoming speaker), and flushes the last line after the loop (labelled with its
   * own speaker).
   */
  method MergeLines(words: seq<Word>, speakerMap: map<SpeakerKey, string>)
    returns (outputLines: seq<string>, segments: seq<Segment>)
    ensures segments == Flush(Runs(Tokens(words)), speakerMap)
    ensures outputLines == Lines(segments)
  {
    outputLines := [];
    segments := [];
    var currentSpeaker := NoneKey;
    var currentLine: seq<string> := [];
    var i := 0;
    while i < |words|
      invariant 0 <= i <= |words|
      invariant Merged(Runs(Tokens(words[..i])), speakerMap, currentSpeaker, currentLine, segments)
      invariant outputLines == Lines(segments)
    {
      var word := words[i];
      ghost var ts := Tokens(words[..i]);
      assert words[..i + 1] == words[..i] + [word];
      TokensSnoc(words[..i], word);
      if IsWordToken(word) {
        var spk := KeyOf(word);
        assert Tokens(words[..i + 1]) == ts + [TokenOf(word)];
        MergeWord(ts, TokenOf(word), speakerMap, currentSpeaker, currentLine, segments);
        var speakerLabel := LabelFor(speakerMap, spk);
        if currentSpeaker != spk {
          if currentLine != [] {
            var segment := Segment(speakerLabel, JoinWith(" ", currentLine));
            LinesSnoc(segments, segment);
            outputLines := outputLines + [Line(segment)];
            segments := segments + [segment];
          }
          currentSpeaker := spk;
          currentLine := [word.text];
        } else {
          currentLine := currentLine + [word.text];
        }
        assert Merged(Runs(ts + [TokenOf(word)]), speakerMap, currentSpeaker, currentLine, segments);
      } else {
        assert Tokens(words[..i + 1]) == ts;
      }
      i := i + 1;
    }
    assert words[..|words|] == words;
    MergeFinish(Tokens(words), speakerMap, currentSpeaker, currentLine, segments);
    if currentLine != [] {
      var segment := Segment(LabelFor(speakerMap, currentSpeaker), JoinWith(" ", currentLine));
      LinesSnoc(segments, segment);
      outputLines := outputLines + [Line(segment)];
      segments := segments + [segment];
    }
  }

  /**
   * The reassembly of a diarized reply: speaker numbering from the first pass,
   * merged and labelled lines from the second, joined with newlines.
   */
  method Reassemble(words: seq<Word>) returns (text: string, segments: seq<Segment>)
    ensures segments == Diarize(words)
    ensures text == Render(segments)
  {
    var firstSeen := FirstAppearances(words);
    var speakerMap := SpeakerMap(firstSeen);
    var outputLines;
    outputLines, segments := MergeLines(words, speakerMap);
    text := JoinWith("\n", outputLines);
  }

  /**
   * The form of a call that passes no speaker count, language or prompt: exactly
   * the model, diarization and a speaker count of two.
   */
  lemma {:induction false} DefaultForm(data: map<string, FormValue>)
    requires IsScribeForm(data, Some(DefaultNumSpeakers), None, None)
    ensures data == map["model_id" := Text(ModelId), "diarize" := Flag(true),
                        "num_speakers" := Number(DefaultNumSpeakers)]
  {
    var expected := map["model_id" := Text(ModelId), "diarize" := Flag(true),
                        "num_speakers" := Number(DefaultNumSpeakers)];
    assert data.Keys == expected.Keys;
  }

  /** The parsed JSON body of a successful reply: its `words` and `text` entries, when present. */
  datatype Reply = Reply(words: Option<seq<Word>>, text: Option<string>)

  /** What `transcribe` returns: a string, or the string and the segments. */
  datatype Output = Plain(text: string) | WithSegments(text: string, segments: seq<Segment>)

  /**
   * One call of the provider. Without an API key no form is built and the result
   * is empty. Any failure inside the `try` block (opening the audio file, the
   * request, decoding the reply) also gives the empty result. A reply with `words`
   * gives the rendered transcript, and the segments too when asked for. Any other
   * reply gives its `text`, or the empty string. Unless the caller says otherwise,
   * the form asks for two speakers.
   */
  method Transcribe(apiKey: Option<string>, reply: Result<Reply, string>,
                    language: Option<string> := None, prompt: Option<string> := None,
                    numSpeakers: Option<int> := Some(DefaultNumSpeakers), returnSegments: bool := false)
    returns (form: Option<map<string, FormValue>>, out: Output)
    ensures form.Some? <==> Given(apiKey)
    ensures form.Some? ==> IsScribeForm(form.value, numSpeakers, language, prompt)
    ensures !Given(apiKey) ==> out == Plain("")
    ensures Given(apiKey) && reply.Failure? ==> out == Plain("")
    ensures Given(apiKey) && reply.Success? && reply.value.words.Some? ==>
              var segs := Diarize(reply.value.words.value);
              out == if returnSegments then WithSegments(Render(segs), segs) else Plain(Render(segs))
    ensures Given(apiKey) && reply.Success? && reply.value.words.None? ==>
              out == Plain(if reply.value.text.Some? then reply.value.text.value else "")
  {
    if !Given(apiKey) {
      return None, Plain("");
    }
    var data := BuildRequestData(numSpeakers, language, prompt);
    form := Some(data);
    match reply {
      case Failure(_) =>
        out := Plain("");
      case Success(result) =>
        if result.words.Some? {
          var text, segments := Reassemble(result.words.value);
          if returnSegments {
            out := WithSegments(text, segments);
          } else {
            out := Plain(text);
          }
        } else {
          out := Plain(if result.text.Some? then result.text.value else "");
        }
    }
  }
}
