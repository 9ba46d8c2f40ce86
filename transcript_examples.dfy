/**
 * Concrete responses and the transcripts the reassembly gives for them, showing
 * the label shift of flushed segments. Each example is first proved for any two
 * distinct speakers and any word texts, then instantiated.
 */
module TranscriptExamples {
  import opened Transcript
  import opened Decimal

  /** A word token spoken by speaker `s`. */
  function Spoken(text: string, s: string): Word
  {
    Word(WordType, text, Id(s))
  }

  /** The first two labels handed out. */
  lemma {:induction false} FirstLabels()
    ensures SpeakerLabel(0) == "speaker_1" && SpeakerLabel(1) == "speaker_2"
  {
    assert Show(1) == "1" && Show(2) == "2";
  }

  /** The two speaker names of the examples differ. */
  lemma {:induction false} DistinctSpeakerNames()
    ensures "speaker_a" != "speaker_b"
  {
    assert "speaker_a"[8] != "speaker_b"[8];
  }

  lemma {:induction false} TokensOfTwo(w1: Word, w2: Word)
    requires IsWordToken(w1) && IsWordToken(w2)
    ensures Tokens([w1, w2]) == [TokenOf(w1), TokenOf(w2)]
  {
    var empty: seq<Word> := [];
    TokensSnoc(empty, w1);
    assert empty + [w1] == [w1] && Tokens(empty) == [];
    TokensSnoc([w1], w2);
    assert [w1] + [w2] == [w1, w2];
  }

  lemma {:induction false} JoinOne(x: string)
    ensures JoinWith(" ", [x]) == x
  {
  }

  // ---------------------------------------------------------------------------
  // Two speakers taking turns: A, B, A, B.

  /** Speakers a, b, a, b, one word each, with a spacing token after the first word. */
  function AlternatingOf(a: string, b: string, x1: string, x2: string, x3: string, x4: string): seq<Word>
  {
    [Spoken(x1, a), Word("spacing", " ", Id(a)), Spoken(x2, b), Spoken(x3, a), Spoken(x4, b)]
  }

  lemma {:induction false} AlternatingTokens(a: string, b: string, x1: string, x2: string, x3: string, x4: string)
    ensures Tokens(AlternatingOf(a, b, x1, x2, x3, x4))
         == [Token(Named(a), x1), Token(Named(b), x2), Token(Named(a), x3), Token(Named(b), x4)]
  {
    var words := AlternatingOf(a, b, x1, x2, x3, x4);
    var w1, sp, w2, w3, w4 := words[0], words[1], words[2], words[3], words[4];
    assert words == [w1] + [sp] + [w2, w3, w4];
    assert !IsWordToken(sp) by { assert sp.kind[0] != WordType[0]; }
    NonWordTokensIgnored([w1], sp, [w2, w3, w4]);
    assert [w1] + [w2, w3, w4] == [w1, w2] + [w3, w4];
    TokensAppend([w1, w2], [w3, w4]);
    TokensOfTwo(w1, w2);
    TokensOfTwo(w3, w4);
  }

  lemma {:induction false} AlternatingRuns(a: SpeakerKey, b: SpeakerKey, x1: string, x2: string, x3: string, x4: string)
    requires a != b
    ensures Runs([Token(a, x1), Token(b, x2), Token(a, x3), Token(b, x4)])
         == [Run(a, [x1]), Run(b, [x2]), Run(a, [x3]), Run(b, [x4])]
  {
    var rs := [Run(a, [x1]), Run(b, [x2]), Run(a, [x3]), Run(b, [x4])];
    assert Maximal(rs);
    ExpandSnoc([], rs[0]);
    ExpandSnoc(rs[..1], rs[1]);
    ExpandSnoc(rs[..2], rs[2]);
    ExpandSnoc(rs[..3], rs[3]);
    assert rs[..1] == [] + [rs[0]] && rs[..2] == rs[..1] + [rs[1]];
    assert rs[..3] == rs[..2] + [rs[2]] && rs == rs[..3] + [rs[3]];
    assert RunTokens(rs[0]) == [Token(a, x1)] && RunTokens(rs[1]) == [Token(b, x2)];
    assert RunTokens(rs[2]) == [Token(a, x3)] && RunTokens(rs[3]) == [Token(b, x4)];
    assert Expand(rs) == [Token(a, x1), Token(b, x2), Token(a, x3), Token(b, x4)];
    RunsExpand(rs);
  }

  /** Two alternating speakers are numbered in the order of their first words. */
  lemma {:induction false} AlternatingOrder(a: SpeakerKey, b: SpeakerKey)
    requires a != b
    ensures SpeakerOrder([a, b, a, b]) == [a, b]
  {
    assert SpeakerOrder([a]) == [a] by { assert [a][..0] == []; }
    assert SpeakerOrder([a, b]) == [a, b] by { assert [a, b][..1] == [a]; }
    assert SpeakerOrder([a, b, a]) == [a, b] by { assert [a, b, a][..2] == [a, b]; }
    assert [a, b, a, b][..3] == [a, b, a];
  }

  /**
   * Any two distinct speakers taking turns: each flushed segment carries the next
   * speaker's label, so the labels read speaker_2, speaker_1, speaker_2, speaker_2.
   */
  lemma {:induction false} Alternating(a: string, b: string, x1: string, x2: string, x3: string, x4: string)
    requires a != b
    ensures Diarize(AlternatingOf(a, b, x1, x2, x3, x4))
         == [Segment(SpeakerLabel(1), x1), Segment(SpeakerLabel(0), x2),
             Segment(SpeakerLabel(1), x3), Segment(SpeakerLabel(1), x4)]
  {
    var ka, kb := Named(a), Named(b);
    var ts := [Token(ka, x1), Token(kb, x2), Token(ka, x3), Token(kb, x4)];
    AlternatingTokens(a, b, x1, x2, x3, x4);
    AlternatingRuns(ka, kb, x1, x2, x3, x4);
    assert Speakers(ts) == [ka, kb, ka, kb];
    AlternatingOrder(ka, kb);
    var m := ResponseLabels(ts);
    SpeakerMapLabels([ka, kb]);
    var rs := [Run(ka, [x1]), Run(kb, [x2]), Run(ka, [x3]), Run(kb, [x4])];
    FlushLabels(rs, m);
    JoinOne(x1); JoinOne(x2); JoinOne(x3); JoinOne(x4);
  }

  function AlternatingWords(): seq<Word>
  {
    AlternatingOf("speaker_a", "speaker_b", "Hi", "yes", "so", "ok")
  }

  /** The alternating example with its concrete labels. */
  lemma {:induction false} AlternatingSpeakers()
    ensures Diarize(AlternatingWords())
         == [Segment("speaker_2", "Hi"), Segment("speaker_1", "yes"),
             Segment("speaker_2", "so"), Segment("speaker_2", "ok")]
  {
    DistinctSpeakerNames();
    Alternating("speaker_a", "speaker_b", "Hi", "yes", "so", "ok");
    FirstLabels();
  }

  // ---------------------------------------------------------------------------
  // A two-word utterance answered by a one-word utterance.

  /** Speaker a says x and y, then speaker b says z. */
  function GreetingOf(a: string, b: string, x: string, y: string, z: string): seq<Word>
  {
    [Spoken(x, a), Spoken(y, a), Spoken(z, b)]
  }

  lemma {:induction false} GreetingTokens(a: string, b: string, x: string, y: string, z: string)
    ensures Tokens(GreetingOf(a, b, x, y, z)) == [Token(Named(a), x), Token(Named(a), y), Token(Named(b), z)]
  {
    var words := GreetingOf(a, b, x, y, z);
    var w1, w2, w3 := words[0], words[1], words[2];
    TokensOfTwo(w1, w2);
    TokensSnoc([w1, w2], w3);
    assert [w1, w2] + [w3] == words;
  }

  lemma {:induction false} GreetingRuns(a: SpeakerKey, b: SpeakerKey, x: string, y: string, z: string)
    requires a != b
    ensures Runs([Token(a, x), Token(a, y), Token(b, z)]) == [Run(a, [x, y]), Run(b, [z])]
  {
    var rs := [Run(a, [x, y]), Run(b, [z])];
    assert Maximal(rs);
    ExpandSnoc([], rs[0]);
    ExpandSnoc([rs[0]], rs[1]);
    assert [] + [rs[0]] == [rs[0]] && [rs[0]] + [rs[1]] == rs;
    assert RunTokens(rs[0]) == [Token(a, x), Token(a, y)] && RunTokens(rs[1]) == [Token(b, z)];
    assert Expand(rs) == [Token(a, x), Token(a, y), Token(b, z)];
    RunsExpand(rs);
  }

  /** A speaker who says two words before a second speaker comes first. */
  lemma {:induction false} GreetingOrder(a: SpeakerKey, b: SpeakerKey)
    requires a != b
    ensures SpeakerOrder([a, a, b]) == [a, b]
  {
    assert SpeakerOrder([a]) == [a] by { assert [a][..0] == []; }
    assert SpeakerOrder([a, a]) == [a] by { assert [a, a][..1] == [a]; }
    assert [a, a, b][..2] == [a, a];
  }

  /**
   * Any speaker's two words answered by another speaker's one word: the first
   * segment is flushed under the second speaker's label, so both read speaker_2.
   */
  lemma {:induction false} Greeting(a: string, b: string, x: string, y: string, z: string)
    requires a != b
    ensures Diarize(GreetingOf(a, b, x, y, z))
         == [Segment(SpeakerLabel(1), x + " " + y), Segment(SpeakerLabel(1), z)]
  {
    var ka, kb := Named(a), Named(b);
    var ts := [Token(ka, x), Token(ka, y), Token(kb, z)];
    GreetingTokens(a, b, x, y, z);
    GreetingRuns(ka, kb, x, y, z);
    assert Speakers(ts) == [ka, ka, kb];
    GreetingOrder(ka, kb);
    var m := ResponseLabels(ts);
    SpeakerMapLabels([ka, kb]);
    var rs := [Run(ka, [x, y]), Run(kb, [z])];
    FlushLabels(rs, m);
    JoinWithTwo(" ", x, y);
    JoinOne(z);
  }

  /** Speaker A says "Hello there", then speaker B says "Hi". */
  function GreetingWords(): seq<Word>
  {
    GreetingOf("speaker_a", "speaker_b", "Hello", "there", "Hi")
  }

  /** The greeting's segments: the first carries B's label, the second B's own. */
  lemma {:induction false} GreetingSegments()
    ensures Diarize(GreetingWords()) == [Segment("speaker_2", "Hello there"), Segment("speaker_2", "Hi")]
  {
    DistinctSpeakerNames();
    FirstLabels();
    Greeting("speaker_a", "speaker_b", "Hello", "there", "Hi");
    assert "Hello" + " " + "there" == "Hello there";
  }

  /** Two segments render as their two lines, separated by a newline. */
  lemma {:induction false} RenderTwo(s1: Segment, s2: Segment)
    ensures Render([s1, s2]) == Line(s1) + "\n" + Line(s2)
  {
    assert Lines([s1, s2]) == [Line(s1), Line(s2)];
    JoinWithTwo("\n", Line(s1), Line(s2));
  }

  /** The two lines of the greeting, joined. */
  lemma {:induction false} GreetingLines()
    ensures Line(Segment("speaker_2", "Hello there")) + "\n" + Line(Segment("speaker_2", "Hi"))
         == "speaker_2: Hello there\nspeaker_2: Hi"
  {
    assert Line(Segment("speaker_2", "Hello there")) == "speaker_2: Hello there";
    assert Line(Segment("speaker_2", "Hi")) == "speaker_2: Hi";
  }

  /** The greeting's rendered transcript. */
  lemma {:induction false} GreetingTranscript()
    ensures Render(Diarize(GreetingWords())) == "speaker_2: Hello there\nspeaker_2: Hi"
  {
    GreetingSegments();
    RenderTwo(Segment("speaker_2", "Hello there"), Segment("speaker_2", "Hi"));
    GreetingLines();
  }
}
