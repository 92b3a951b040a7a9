# Sentiment inference service — Dafny model

The service exposes two pre-trained sentiment classifiers over HTTP, on the
`/neural_network` and `/lstm` routes. Each route reads the `text` form field and
cleanses it: lower-casing, then turning every code point outside `[a-zA-Z0-9]` into
one space. It passes the cleansed text to its frozen model and answers with an
envelope `{status_code: 200, description, data: {text, sentiment}}`. The echoed
`text` is the cleansed text, not the raw one. The LSTM route turns the model's
probability vector into a label: it takes the first index of the maximum, as
`np.argmax` does, and looks that index up in `["negative", "neutral", "positive"]`.

This project models that logic as pure functions:

- `results.dfy`, module `Results`: `Option` (a form field that may be absent) and
  `Result` (a step that answers or raises).
- `cleansing.dfy`, module `Cleansing`: `Lower` (Python's `str.lower`, as far as the
  substitution can observe it),
  `Substitute` (the `re.sub`), `Cleanse` (their composition), and `CleanChar`, an
  independent case-by-case description of what cleansing does to one code point.
- `resolution.dfy`, module `Resolution`: the label list, `ArgMax` with
  first-index tie-break, and `Resolve` with the two ways the Python code can
  raise.
- `envelopes.dfy`, module `Envelopes`: the response envelope and `MakeEnvelope`.
- `routes.dfy`, module `Routes`: the two handlers. Each takes the trained
  artifacts as an opaque function argument.
- `scenarios.dfy`, module `Scenarios`: worked examples of cleansing and label
  resolution, proved about the model.

Strings are sequences of Unicode code points, like Python's `str`. The model does
not restrict cleansing to ASCII. Two non-ASCII code points lower-case to something
the substitution keeps:

- U+212A KELVIN SIGN becomes `k`.
- U+0130 LATIN CAPITAL LETTER I WITH DOT ABOVE becomes the two code points `i`
  U+0307. This is the only case where cleansing lengthens its input.

Every other code point lower-cases to a code point that is ASCII exactly when the
original was. So after the substitution, any other non-ASCII code point is one
space. Cleansing keeps the length only for input without U+0130:
`|Cleanse(s)| == |s| + (number of U+0130 in s)`.

Error behaviour of the handlers:

- A missing `text` field makes `cleansing(None)` raise inside the handler, which
  the framework answers with a server error. It is modelled as `Err(TextMissing)`.
- The service has no file-upload route and no byte decoding.
- `np.argmax` of an empty vector raises. Looking up an index of 3 or more in the
  label list raises too. `Resolve` returns `Err(EmptyDistribution)` and
  `Err(LabelIndexOutOfRange(i))` for these cases. Both are impossible for the
  three-class distribution the trained model produces (`ResolveThree`).

## Model

| member | source | states |
|---|---|---|
| Cleansing.Lower | app.py:34 | lower-casing adds exactly one code point per U+0130 and leaves no ASCII upper-case letter in the text |
| Cleansing.LowerInPlace | app.py:34 | on text without U+0130, lower-casing keeps the length and sends each code point to its lower-case form in place (`A`-`Z` to `a`-`z`, the Kelvin sign to `k`) |
| Cleansing.Substitute | app.py:35 | the substitution keeps the length; a code point in `[a-zA-Z0-9]` is kept and any other becomes one space |
| Cleansing.Cleanse | app.py:33-37 | every output code point is in `[a-z0-9 ]`; the output is as long as the input plus one per U+0130; without U+0130 each position is `CleanChar` of the input code point |
| Cleansing.CleanseAscii | app.py:34-35 | on ASCII input the length is preserved, a letter becomes its lower-case form, a digit is unchanged, and anything else becomes a space |
| Cleansing.CleanseFixedPoint | app.py:33-37 | cleansing leaves a text unchanged if and only if the text is already in `[a-z0-9 ]` |
| Cleansing.CleanseIdempotent | app.py:33-37 | cleansing twice equals cleansing once |
| Cleansing.CleanseAppend | app.py:34-35 | cleansing distributes over concatenation: each code point is handled alone, so a run of punctuation gives a run of spaces |
| Cleansing.CleanseByChar | app.py:34-35 | text that agrees position by position with `CleanChar` of an input without U+0130 is that input's cleansing |
| Resolution.ArgMax | app.py:96 | the index is in bounds, holds a maximum, and every earlier entry is strictly smaller, so the first maximum wins |
| Resolution.FirstMaxIsArgMax | app.py:96 | an index is the first position of the maximum if and only if it is `ArgMax` |
| Resolution.Resolve | app.py:96 | resolution fails exactly on an empty vector or on an argmax index past the label list, and the latter error carries that index; a resolved label is in the list, at a first-maximum position |
| Resolution.ResolveThree | app.py:31 | on a three-class vector resolution succeeds, and it yields the i-th of `negative`, `neutral`, `positive` if and only if i is the first maximum |
| Envelopes.MakeEnvelope | app.py:61-64 | the envelope has status 200, the given description, the cleansed text and the given label unchanged |
| Envelopes.EchoIsStable | app.py:98-101 | the echoed text is in `[a-z0-9 ]`, and an envelope built from the echoed text equals the original envelope |
| Routes.NeuralNetwork | app.py:54-64 | a missing field raises; otherwise status 200, this route's description, the cleansed text, and exactly the classifier's label for the cleansed text |
| Routes.Lstm | app.py:87-101 | a missing field raises; otherwise the route answers exactly when resolving the score of the cleansed text succeeds (always, for a three-class score), with status 200, this route's description, the cleansed text and the resolved label, and a failed resolution is raised with its cause |
| Routes.LstmLabel | app.py:94-96 | on a three-class score the LSTM route answers label i if and only if i is the first maximum of the score of the cleansed text |
| Routes.RoutesAgree | app.py:56-64 | whenever the LSTM route answers, the neural-network route answers the same input too, with the same status and the same echoed text, whatever labels the models chose |
| Routes.AnswerDependsOnCleansedText | app.py:89-96 | two inputs with the same cleansing get identical answers on both routes |
| Routes.ResubmitEcho | app.py:89-101 | sending the cleansed text (what an answer echoes) back to the LSTM route reproduces the response, answer or raise |
| Scenarios.CleanseExample | app.py:33-37 | `I absolutely love this product!!!` cleanses to `i absolutely love this product` followed by three spaces |
| Scenarios.CleanseDottedCapitalI | app.py:34 | U+0130 cleanses to `i` and a space, two code points from one |
| Scenarios.CleanseKelvinSign | app.py:34 | the Kelvin sign cleanses to `k` |
| Scenarios.CleanseAccentedLetters | app.py:35 | accented letters each become one space |
| Scenarios.ResolveExamples | app.py:96 | `[0.7, 0.2, 0.1]` resolves to `negative`, `[0.1, 0.1, 0.8]` to `positive`, and the tie `[0.5, 0.5, 0.0]` to `negative` |

## Left out

- Flask routing, `request.form.get`, `jsonify` and the Swagger/flasgger setup: HTTP and documentation plumbing. The form field is an `Option<string>` parameter, and the envelope is a datatype rather than JSON.
- Loading the artifacts with `open`, `pickle.load` and `tf.keras.models.load_model`: file I/O and deserialisation at startup.
- `neural_network_feature.transform`, `neural_network_model.predict`, `lstm_tokenizer.texts_to_sequences`, `pad_sequences` and `lstm_model.predict`: library code that is not part of this model. Each route takes one opaque function of the cleansed text instead: `classify` returns a label, `score` returns the probability row. No tokenisation, padding or truncation semantics are assumed, so the fixed sequence length of the padded input is not modelled. A model call that raises, or an empty prediction batch (`[0]` on an empty result), is not modelled either.
- The `print` of the prediction row: console output only.
- Cleansing.LowerCode: non-ASCII code points other than U+0130 and U+212A are kept unchanged rather than lower-cased. Unicode does not lower-case any of them to ASCII, so the substitution replaces them with one space either way. Full Unicode case tables are not modelled, nor is the context-dependent final-sigma rule of `str.lower`, which only chooses between two non-ASCII sigmas that both become one space. So `Cleansing.LowerAppend` holds of the model's `Lower`, not of Python's `str.lower` on Greek text.
- IEEE floating point: probabilities are Dafny `real`, so NaN and float32 rounding are not modelled.
- The label type of the `/neural_network` route is a type parameter, because the classifier decides it. Nothing ties it to the three LSTM labels.
- Call counting: the model does not express that a missing field stops a handler before any model call. `NeuralNetwork` and `Lstm` only state that such a request raises.
