# Diarized transcript reassembly of the audio-to-text providers

This project models the logic in `providers.py` of the audio-to-text tool and proves
properties about it. The Scribe (ElevenLabs) provider asks the speech-to-text service
for a diarized transcription. The reply holds a list of `words`. Each word has a
`type`, a `text` and an optional `speaker_id`. The provider turns the list into
speaker segments and newline-separated `speaker_<k>: text` lines:

- The first pass records each speaker in the order of its first word.
- Speaker number i (counted from 0) gets the label `speaker_<i+1>`.
- The second pass merges consecutive words of one speaker into one line. It flushes
  the line when a word of another speaker arrives, and once more at the end.

The model also covers:

- the form fields of the Scribe request;
- the early return when no API key is configured;
- the Whisper provider's language and prompt defaults;
- the factory that picks a provider by its configured name.

Modules:

- `Transcript` (transcript.dfy) is the specification of the reassembly. It defines
  the word tokens (`Tokens`), the first-appearance order (`SpeakerOrder`), the label
  map (`SpeakerMap`), the maximal same-speaker runs (`Runs`, with their inverse
  `Expand`), the flushing rule (`Flush`), the segments (`Diarize`) and the rendered
  text (`Render`). The lemmas about them are in the same file.
- `Scribe` (scribe.dfy) holds the imperative code, proved against `Transcript`.
  `FirstAppearances` and `MergeLines` are the two loops. `Reassemble` chains them.
  `BuildRequestData` fills the form fields. `Transcribe` is one provider call, with
  the parsed reply (or the failure) passed in as a parameter.
- `TranscriptExamples` (transcript_examples.dfy) works through concrete replies.
- `Whisper` (whisper.dfy), `ProviderFactory` (factory.dfy), `Decimal` (decimal.dfy,
  the decimal numerals inside labels) and `Wrappers` (wrappers.dfy: `Option`,
  `Result`, and Python's truth test on an optional string).

A reader might expect each segment to carry its own speaker's label; the code
does not do that. When the speaker changes,
`providers.py:113` has already looked up the label of the *incoming* word's speaker,
and lines 116-117 flush the finished line under that label. Only the final flush
(lines 123-124) uses the line's own speaker. So every segment except the last carries
the label of the next segment's speaker:

- speakers A, B, A, B give `speaker_2`, `speaker_1`, `speaker_2`, `speaker_2`;
- "Hello there" by A followed by "Hi" by B renders as
  `speaker_2: Hello there\nspeaker_2: Hi`.

The model follows the code. `Transcript.FlushLabels` states the shift in general, and the lemmas in
`TranscriptExamples` prove the two examples.

A word's `speaker_id` is modelled in three states: the key is missing, it is JSON
`null`, or it is a string. A missing key means `"speaker_0"`. A `null` becomes
Python's `None`, which is a dictionary key like any other. The second pass starts
with `current_speaker = None`. If the first word also has speaker `None`, the code
takes the "same speaker" branch and appends to the empty line. The model keeps that
branch, and the proofs show it gives the same result as opening a new line.

## Model

| member | source | states |
|---|---|---|
| `Transcript.TokensAppend` | providers.py:109-111 | The word tokens of a concatenated reply are the tokens of each part, in order. |
| `Transcript.NonWordTokensIgnored` | providers.py:96-98 | Inserting a token whose type is not "word" anywhere leaves the tokens and the segments unchanged: it adds no text, starts or ends no run and gets no label. |
| `Transcript.MissingSpeakerIsSpeakerZero` | providers.py:99 | A word without `speaker_id` gives exactly the segments of the same word with speaker "speaker_0". |
| `Transcript.FirstIndex` | providers.py:100-101 | The returned position holds the key and no earlier position does. |
| `Transcript.SpeakerOrderIsFirstAppearance` | providers.py:96-106 | The recorded speaker keys have no duplicates, are exactly the speakers of the word tokens, and are ordered by each speaker's first word. |
| `Transcript.SpeakerMapLabels` | providers.py:106-107 | For distinct keys, the map's keys are exactly those keys and key number i is labelled `speaker_<i+1>`. |
| `Transcript.SpeakerLabelInjective` | providers.py:107 | Different speaker numbers give different labels. |
| `Transcript.SpeakerMapInjective` | providers.py:106-107 | For distinct keys, distinct keys of the label map carry distinct labels. |
| `Transcript.ResponseLabelsSound` | providers.py:100-113 | Every speaker of the reply is in the label map, so the `speaker_1` fallback is never taken. The i-th speaker to appear gets `speaker_<i+1>`, and distinct speakers get distinct labels. |
| `Transcript.Runs` | providers.py:114-121 | The merged lines are never more than the word tokens, and there are none exactly when there are no word tokens. |
| `Transcript.RunsMaximal` | providers.py:114-121 | Every merged line holds at least one word, and neighbouring lines belong to different speakers. |
| `Transcript.ExpandRuns` | providers.py:114-121 | Expanding the merged lines gives back the word tokens: nothing is dropped, duplicated or reordered. |
| `Transcript.RunsExpand` | providers.py:114-121 | Maximal runs are determined by their tokens, so the merge yields exactly the maximal runs. |
| `Transcript.Flush` | providers.py:114-124 | Exactly one segment is emitted per merged line. |
| `Transcript.FlushLabels` | providers.py:113-124 | Segment k holds line k's words joined by single spaces. It is labelled with line k+1's speaker, except the last segment, which gets its own speaker's label. |
| `Transcript.DiarizeSegments` | providers.py:109-124 | There are as many segments as maximal runs of the reply, and each run's speaker has a label. The texts and the shifted labels are stated against those runs. |
| `Transcript.EmptyResponse` | providers.py:122-127 | A reply yields no segments exactly when it has no word tokens, and then the output is the empty string. |
| `Transcript.SegmentTextsPreserveWords` | providers.py:114-124 | Joining the segment texts with single spaces gives the word texts of the reply, in order, joined with single spaces. |
| `Transcript.SingleSpeaker` | providers.py:113-124 | A reply whose words all come from one speaker gives one segment labelled `speaker_1` that holds all its words. |
| `TranscriptExamples.Alternating` | providers.py:113-124 | For any two distinct speakers taking turns (a, b, a, b), with a non-word token in between, the segments are labelled `speaker_2`, `speaker_1`, `speaker_2`, `speaker_2`, and each segment holds one word. |
| `TranscriptExamples.AlternatingSpeakers` | providers.py:113-124 | Speakers A, B, A, B, with a spacing token in between, give labels `speaker_2`, `speaker_1`, `speaker_2`, `speaker_2`. |
| `TranscriptExamples.Greeting` | providers.py:113-124 | For any speaker's two words followed by another speaker's one word, both segments are labelled `speaker_2`. The first segment holds the two words joined by a space. |
| `TranscriptExamples.GreetingSegments` | providers.py:113-124 | "Hello there" by A followed by "Hi" by B gives two segments, both labelled `speaker_2`. |
| `TranscriptExamples.GreetingTranscript` | providers.py:122-127 | That reply renders as `speaker_2: Hello there\nspeaker_2: Hi`. |
| `Scribe.BuildRequestData` | providers.py:66-78 | The form always has `model_id = "scribe_v1"` and `diarize = True`. It has `num_speakers` exactly when a count is given (two unless the caller passes another count or none), `language_code` and `prompt` exactly when they are non-empty, and no other field. |
| `Scribe.DefaultForm` | providers.py:50-78 | A call that passes no speaker count, language or prompt builds exactly the form `{model_id: "scribe_v1", diarize: True, num_speakers: 2}`. |
| `Scribe.FirstAppearances` | providers.py:96-106 | The first loop yields the speakers in the order of their first word token. |
| `Scribe.MergeWord` | providers.py:109-121 | One word token processed by the second loop keeps its state equal to the open last run plus the runs flushed so far. |
| `Scribe.MergeFinish` | providers.py:122-124 | After the last word, flushing a non-empty open line under its own speaker's label completes the segments; an empty open line means they are already complete. |
| `Scribe.MergeLines` | providers.py:108-124 | The second loop yields the flushed segments of the maximal runs, and one `label: text` line per segment. |
| `Scribe.Reassemble` | providers.py:88-127 | The returned segments are `Diarize(words)`, and the returned string is their lines joined with newlines. |
| `Scribe.Transcribe` | providers.py:50-139 | The form is built exactly when the API key is non-empty, with `num_speakers = 2` unless the caller passes another count or none. A missing key gives `""`, and so does any failure inside the `try` block: opening the audio file, the request, or decoding the reply. A reply with `words` gives the rendered transcript, plus the segments when asked for. Any other reply gives its `text`, or `""` when it has none. |
| `Whisper.RequestArguments` | providers.py:34-41 | A given non-empty language or prompt is sent as is. Otherwise the language is "en", and the prompt is the default for the language sent, or empty for a language without one. |
| `Whisper.DefaultsAreEnglish` | providers.py:37-38 | No language and no prompt (or empty ones) send English with the English default prompt. |
| `Whisper.ResolvedArgumentsAreFixed` | providers.py:37-38 | Sending the resolved language and a non-empty resolved prompt explicitly changes nothing. |
| `ProviderFactory.GetProvider` | providers.py:142-152 | Exactly "whisper" and "elevenlabs_scribe" select a provider, and the one selected carries that name. Any other name fails with the message naming it. |
| `ProviderFactory.ProviderNameRoundTrip` | providers.py:142-152 | Each provider is selected by its own configured name. |
| `ProviderFactory.ConfiguredProviderIsScribe` | config.py:14 | The shipped configuration selects the Scribe provider. |
| `Decimal.ParseShow` | providers.py:107 | Reading back the decimal numeral of a number gives the number. |
| `Decimal.ShowInjective` | providers.py:107 | Distinct numbers have distinct numerals. |

## Left out

- The HTTP and SDK calls are foreign calls and are not modelled. This covers `requests.post`, `raise_for_status`, `response.json`, the OpenAI client and opening the audio file (providers.py:29-45, 79-85). `Scribe.Transcribe` receives the parsed reply, or a failure, as a parameter.
- The printing of error messages (providers.py:59, 130-139) is I/O and is not modelled. Only the `""` result is.
- The first ~80 characters of each speaker's first utterance (providers.py:101-104) are not modelled. The output never uses those strings; only the order in which their keys are inserted matters, and that order is modelled.
- The unused parameters `global_speaker_map`, `global_speaker_texts` and `next_speaker_id` (providers.py:50) are left out: the body never reads them.
- The model assumes a well-formed reply: every word has a string `type` and a string `text`, and its `speaker_id` is missing, `null` or a string. Other replies cannot be represented:
  - A word without a `type` or `text` key raises inside the `try`, and the call returns `""`. So does an unhashable `speaker_id` (a list or an object) or a non-string `text`.
  - A word whose `type` is some other JSON value is skipped without error (providers.py:97-98).
  - A numeric or boolean `speaker_id` becomes an ordinary dictionary key (providers.py:99-100).
  - A top-level `text` entry holding `null` is not modelled either.
- Whisper's response handling (`response.text if hasattr(...)`), its error path, its API key and the `temperature` (a float) are not modelled. Only the argument defaulting is.
- Scribe.BuildRequestData: states which fields the form holds and their values, but not the order in which they are inserted into the dictionary. That order also decides the order of the fields in the encoded request body. A map has no order, and the service reads the fields by name.
- transcribe.py and speech-to-text.py are not part of this model. They are scripts of file-system checks, interactive prompts and a single remote call.
- The configuration loading in config.py is not part of this model. The constants the model needs are written inline.
- The size-based splitting of audio files happens outside `providers.py` and is not modelled.
