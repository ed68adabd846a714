/** lib/faster_whisper/tokenizer.py: the part of the Whisper tokenizer wrapper
    that does not call into the foreign `tokenizers` library. The foreign
    tokenizer is a pair of functions (token_to_id and decode), fixed when the
    wrapper is built; everything the wrapper derives from them is modelled
    here: constructor validation, the special token ids, the start-of-
    transcript sequence, the text-token filter, the timestamp grouping of
    decode_with_timestamps, the word splitters and the per-character script
    classifier. */
module WhisperTokenizer {
  import opened Wrappers
  import opened Text

  // ---------------------------------------------------------------------
  // Tables
  // ---------------------------------------------------------------------

  /** _TASKS */
  const Tasks: seq<string> := ["transcribe", "translate"]

  /** _LANGUAGE_CODES, in the source's order. */
  const LanguageCodes: seq<string> :=
    ["multi", "af", "am", "ar", "as", "az", "ba", "be", "bg", "bn", "bo", "br", "bs", "ca", "cs",
     "cy", "da", "de", "el", "en", "es", "et", "eu", "fa", "fi", "fo", "fr", "gl", "gu", "ha",
     "haw", "he", "hi", "hr", "ht", "hu", "hy", "id", "is", "it", "ja", "jw", "ka", "kk", "km",
     "kn", "ko", "la", "lb", "ln", "lo", "lt", "lv", "mg", "mi", "mk", "ml", "mn", "mr", "ms",
     "mt", "my", "ne", "nl", "nn", "no", "oc", "pa", "pl", "ps", "pt", "ro", "ru", "sa", "sd",
     "si", "sk", "sl", "sn", "so", "sq", "sr", "su", "sv", "sw", "ta", "te", "tg", "th", "tk",
     "tl", "tr", "tt", "uk", "ur", "uz", "vi", "yi", "yo", "zh", "yue"]

  /** The scripts get_char_lang tells apart: the six keys of _UNICODE_RANGE
      and 'other'. */
  datatype Lang = Zh | Ja | Ko | Th | Lo | My | Other

  /** An inclusive code-point range. */
  datatype Range = Range(lo: int, hi: int)

  /** _UNICODE_RANGE: the Unicode blocks listed for each script ('other'
      has none). */
  function UnicodeRange(l: Lang): seq<Range>
  {
    match l
    case Zh => [Range(0x4E00, 0x9FFF), Range(0x3400, 0x4DBF), Range(0x20000, 0x2A6DF),
                Range(0x2A700, 0x2B73F), Range(0x2B740, 0x2B81F)]
    case Ja => [Range(0x4E00, 0x9FFF), Range(0x3040, 0x309F), Range(0x30A0, 0x30FF), Range(0xFF66, 0xFF9F)]
    case Ko => [Range(0xAC00, 0xD7AF), Range(0x1100, 0x11FF)]
    case Th => [Range(0x0E00, 0x0E7F)]
    case Lo => [Range(0x0E80, 0x0EFF)]
    case My => [Range(0x1000, 0x109F)]
    case Other => []
  }

  predicate InRanges(code: int, ranges: seq<Range>)
  {
    exists k :: 0 <= k < |ranges| && ranges[k].lo <= code <= ranges[k].hi
  }

  // ---------------------------------------------------------------------
  // get_char_lang
  // ---------------------------------------------------------------------

  /** get_char_lang: the first block in the source's test order that holds
      the code point decides; none gives Other. */
  function CharLang(code: int): Lang
  {
    if 0x4E00 <= code <= 0x9FFF then Zh
    else if 0x3400 <= code <= 0x4DBF then Zh
    else if 0x20000 <= code <= 0x2A6DF then Zh
    else if 0x2A700 <= code <= 0x2B73F then Zh
    else if 0x2B740 <= code <= 0x2B81F then Zh
    else if 0x3040 <= code <= 0x309F then Ja
    else if 0x30A0 <= code <= 0x30FF then Ja
    else if 0xFF66 <= code <= 0xFF9F then Ja
    else if 0xAC00 <= code <= 0xD7AF then Ko
    else if 0x1100 <= code <= 0x11FF then Ko
    else if 0x0E00 <= code <= 0x0E7F then Th
    else if 0x0E80 <= code <= 0x0EFF then Lo
    else if 0x1000 <= code <= 0x109F then My
    else Other
  }

  /** A script other than 'other' is only ever returned for a code point in
      one of that script's blocks of _UNICODE_RANGE. */
  lemma CharLangInTable(code: int)
    ensures CharLang(code) != Other ==> InRanges(code, UnicodeRange(CharLang(code)))
  {
    var l := CharLang(code);
    if l != Other {
      var rs := UnicodeRange(l);
      if l == Zh {
        if 0x4E00 <= code <= 0x9FFF { assert rs[0].lo <= code <= rs[0].hi; }
        else if 0x3400 <= code <= 0x4DBF { assert rs[1].lo <= code <= rs[1].hi; }
        else if 0x20000 <= code <= 0x2A6DF { assert rs[2].lo <= code <= rs[2].hi; }
        else if 0x2A700 <= code <= 0x2B73F { assert rs[3].lo <= code <= rs[3].hi; }
        else { assert rs[4].lo <= code <= rs[4].hi; }
      } else if l == Ja {
        if 0x3040 <= code <= 0x309F { assert rs[1].lo <= code <= rs[1].hi; }
        else if 0x30A0 <= code <= 0x30FF { assert rs[2].lo <= code <= rs[2].hi; }
        else { assert rs[3].lo <= code <= rs[3].hi; }
      } else if l == Ko {
        if 0xAC00 <= code <= 0xD7AF { assert rs[0].lo <= code <= rs[0].hi; }
        else { assert rs[1].lo <= code <= rs[1].hi; }
      } else {
        assert rs[0].lo <= code <= rs[0].hi;
      }
    }
  }

  /** 'other' is returned exactly for the code points outside every block of
      _UNICODE_RANGE. */
  lemma CharLangOther(code: int)
    ensures CharLang(code) == Other <==> forall l: Lang :: !InRanges(code, UnicodeRange(l))
  {
    if CharLang(code) == Other {
      forall l: Lang ensures !InRanges(code, UnicodeRange(l)) {
        var rs := UnicodeRange(l);
        forall k | 0 <= k < |rs| ensures !(rs[k].lo <= code <= rs[k].hi) {
        }
      }
    } else {
      CharLangInTable(code);
    }
  }

  /** The CJK Unified Ideographs block is listed for both Chinese and
      Japanese; the classifier tests Chinese first. */
  lemma CjkIsChinese(code: int)
    requires 0x4E00 <= code <= 0x9FFF
    ensures CharLang(code) == Zh
    ensures InRanges(code, UnicodeRange(Zh)) && InRanges(code, UnicodeRange(Ja))
  {
    assert UnicodeRange(Zh)[0].lo <= code <= UnicodeRange(Zh)[0].hi;
    assert UnicodeRange(Ja)[0].lo <= code <= UnicodeRange(Ja)[0].hi;
  }

  // ---------------------------------------------------------------------
  // The wrapper and its constructor
  // ---------------------------------------------------------------------

  /** The foreign tokenizers.Tokenizer: token_to_id and decode. */
  datatype Backend = Backend(tokenToId: string -> int, decode: seq<int> -> string)

  /** A constructed Tokenizer. Its fields are never reassigned after
      __init__ (the cached properties only memoise), so it is a value. */
  datatype Tokenizer = Tokenizer(backend: Backend, task: Option<int>, language: Option<int>,
                                 languageCode: string, infoLanguage: Option<string>)

  /** The ValueError __init__ raises, with the offending value. */
  datatype ValueError = InvalidTask(task: Option<string>) | InvalidLanguage(language: Option<string>)

  /** "<|%s|>" % name */
  function SpecialToken(name: string): string
  {
    "<|" + name + "|>"
  }

  /** __init__. A multilingual tokenizer must be given a task of _TASKS and
      a language of _LANGUAGE_CODES (the task token is checked first); one that is
      not multilingual ignores both and speaks English. */
  function NewTokenizer(backend: Backend, multilingual: bool, task: Option<string>,
                        language: Option<string>, infoLanguage: Option<string>): (r: Result<Tokenizer, ValueError>)
    ensures r.Success? <==> !multilingual || (task.Some? && task.value in Tasks &&
                                              language.Some? && language.value in LanguageCodes)
    ensures r.Failure? ==> r.error == (if task.None? || task.value !in Tasks then InvalidTask(task)
                                       else InvalidLanguage(language))
    ensures r.Success? && multilingual ==>
              r.value.task == Some(backend.tokenToId(SpecialToken(task.value))) &&
              r.value.language == Some(backend.tokenToId(SpecialToken(language.value))) &&
              r.value.languageCode == language.value
    ensures r.Success? && !multilingual ==>
              r.value.task == None && r.value.language == None && r.value.languageCode == "en"
    ensures r.Success? ==> r.value.backend == backend && r.value.infoLanguage == infoLanguage
  {
    if multilingual then
      if task.None? || task.value !in Tasks then Failure(InvalidTask(task))
      else if language.None? || language.value !in LanguageCodes then Failure(InvalidLanguage(language))
      else Success(Tokenizer(backend, Some(backend.tokenToId(SpecialToken(task.value))),
                             Some(backend.tokenToId(SpecialToken(language.value))), language.value, infoLanguage))
    else Success(Tokenizer(backend, None, None, "en", infoLanguage))
  }

  /** The end-of-text token id. */
  function Eot(t: Tokenizer): int
  {
    t.backend.tokenToId("<|endoftext|>")
  }

  /** The start-of-transcript token id. */
  function Sot(t: Tokenizer): int
  {
    t.backend.tokenToId("<|startoftranscript|>")
  }

  /** timestamp_begin: the id after <|notimestamps|>. */
  function TimestampBegin(t: Tokenizer): int
  {
    t.backend.tokenToId("<|notimestamps|>") + 1
  }

  /** sot_sequence: sot, then the language id when there is one, then the
      task id when there is one. */
  method SotSequence(t: Tokenizer) returns (sequence: seq<int>)
    ensures 1 <= |sequence| <= 3 && sequence[0] == Sot(t)
    ensures |sequence| == 1 + (if t.language.Some? then 1 else 0) + (if t.task.Some? then 1 else 0)
    ensures t.language.Some? ==> sequence[1] == t.language.value
    ensures t.task.Some? ==> sequence[|sequence| - 1] == t.task.value
  {
    sequence := [Sot(t)];
    if t.language.Some? {
      sequence := sequence + [t.language.value];
    }
    if t.task.Some? {
      sequence := sequence + [t.task.value];
    }
  }

  /** A tokenizer that is not multilingual has the bare sequence [sot]; a
      multilingual one has [sot, language, task]. */
  lemma SotSequenceShape(backend: Backend, multilingual: bool, task: Option<string>,
                         language: Option<string>, infoLanguage: Option<string>)
    requires NewTokenizer(backend, multilingual, task, language, infoLanguage).Success?
    ensures var t := NewTokenizer(backend, multilingual, task, language, infoLanguage).value;
            (multilingual <==> t.task.Some? && t.language.Some?) &&
            (!multilingual <==> t.task.None? && t.language.None?)
  {
  }

  // ---------------------------------------------------------------------
  // decode
  // ---------------------------------------------------------------------

  /** The tokens decode hands to the foreign decoder: those below eot, in
      their order. */
  function TextTokens(eot: int, tokens: seq<int>): (r: seq<int>)
    ensures |r| <= |tokens|
    ensures forall k :: 0 <= k < |r| ==> r[k] < eot
  {
    if tokens == [] then []
    else
      var n := |tokens| - 1;
      TextTokens(eot, tokens[..n]) + (if tokens[n] < eot then [tokens[n]] else [])
  }

  function Decode(t: Tokenizer, tokens: seq<int>): string
  {
    t.backend.decode(TextTokens(Eot(t), tokens))
  }

  /** Filtering distributes over concatenation. */
  lemma {:induction false} TextTokensAppend(eot: int, a: seq<int>, b: seq<int>)
    ensures TextTokens(eot, a + b) == TextTokens(eot, a) + TextTokens(eot, b)
    decreases |b|
  {
    if b == [] {
      assert a + b == a;
    } else {
      var n := |b| - 1;
      assert (a + b)[..|a + b| - 1] == a + b[..n];
      TextTokensAppend(eot, a, b[..n]);
    }
  }

  /** Exactly the tokens below eot survive, each as often as in the input. */
  lemma {:induction false} TextTokensCount(eot: int, tokens: seq<int>, x: int)
    ensures multiset(TextTokens(eot, tokens))[x] == if x < eot then multiset(tokens)[x] else 0
    decreases |tokens|
  {
    if tokens != [] {
      var n := |tokens| - 1;
      TextTokensCount(eot, tokens[..n], x);
      MultisetSplitLast(tokens);
      assert multiset(TextTokens(eot, tokens)) ==
             multiset(TextTokens(eot, tokens[..n])) + multiset(if tokens[n] < eot then [tokens[n]] else []);
    }
  }

  /** The input, when every token is a text token, is kept whole. */
  lemma {:induction false} TextTokensAllText(eot: int, tokens: seq<int>)
    requires forall k :: 0 <= k < |tokens| ==> tokens[k] < eot
    ensures TextTokens(eot, tokens) == tokens
    decreases |tokens|
  {
    if tokens != [] {
      var n := |tokens| - 1;
      TextTokensAllText(eot, tokens[..n]);
      SplitLast(tokens);
    }
  }

  /** Filtering twice is filtering once. */
  lemma TextTokensIdempotent(eot: int, tokens: seq<int>)
    ensures TextTokens(eot, TextTokens(eot, tokens)) == TextTokens(eot, tokens)
  {
    TextTokensAllText(eot, TextTokens(eot, tokens));
  }

  // ---------------------------------------------------------------------
  // decode_with_timestamps
  // ---------------------------------------------------------------------

  /** An entry of the outputs list: a run of text tokens, or the timestamp
      whose index (token - timestamp_begin) counts 0.02 s steps. */
  datatype Piece = TextPiece(tokens: seq<int>) | TimestampPiece(index: nat)

  /** The outputs list after the loop over tokens: a timestamp token closes
      the current text run and opens a new, empty one. */
  function Grouped(tb: int, tokens: seq<int>): (r: seq<Piece>)
    ensures |r| >= 1 && r[0].TextPiece? && r[|r| - 1].TextPiece?
  {
    if tokens == [] then [TextPiece([])]
    else
      var n := |tokens| - 1;
      var g := Grouped(tb, tokens[..n]);
      if tokens[n] >= tb then g + [TimestampPiece(tokens[n] - tb), TextPiece([])]
      else g[..|g| - 1] + [TextPiece(g[|g| - 1].tokens + [tokens[n]])]
  }

  /** The tokens a piece stands for. */
  function PieceTokens(tb: int, p: Piece): seq<int>
  {
    match p
    case TextPiece(ts) => ts
    case TimestampPiece(k) => [k + tb]
  }

  /** The token sequence a list of pieces stands for. */
  function Ungroup(tb: int, pieces: seq<Piece>): seq<int>
  {
    if pieces == [] then [] else Ungroup(tb, pieces[..|pieces| - 1]) + PieceTokens(tb, pieces[|pieces| - 1])
  }

  lemma UngroupSnoc(tb: int, pieces: seq<Piece>, p: Piece)
    ensures Ungroup(tb, pieces + [p]) == Ungroup(tb, pieces) + PieceTokens(tb, p)
  {
    assert (pieces + [p])[..|pieces|] == pieces;
  }

  /** A timestamp token appends its timestamp and a fresh text run. */
  lemma UngroupTimestampStep(tb: int, g: seq<Piece>, x: int)
    requires x >= tb
    ensures Ungroup(tb, g + [TimestampPiece(x - tb), TextPiece([])]) == Ungroup(tb, g) + [x]
  {
    var h := g + [TimestampPiece(x - tb)];
    assert g + [TimestampPiece(x - tb), TextPiece([])] == h + [TextPiece([])];
    UngroupSnoc(tb, g, TimestampPiece(x - tb));
    UngroupSnoc(tb, h, TextPiece([]));
  }

  /** A text token extends the last text run. */
  lemma UngroupTextStep(tb: int, g: seq<Piece>, x: int)
    requires |g| >= 1 && g[|g| - 1].TextPiece?
    ensures Ungroup(tb, g[..|g| - 1] + [TextPiece(g[|g| - 1].tokens + [x])]) == Ungroup(tb, g) + [x]
  {
    var m := |g| - 1;
    UngroupSnoc(tb, g[..m], TextPiece(g[m].tokens + [x]));
    assert g == g[..m] + [g[m]];
    UngroupSnoc(tb, g[..m], g[m]);
  }

  /** Grouping one more timestamp token adds exactly that token to what the
      pieces stand for. */
  lemma UngroupGroupedTimestamp(tb: int, tokens: seq<int>)
    requires tokens != [] && tokens[|tokens| - 1] >= tb
    ensures Ungroup(tb, Grouped(tb, tokens)) ==
            Ungroup(tb, Grouped(tb, tokens[..|tokens| - 1])) + [tokens[|tokens| - 1]]
  {
    var n := |tokens| - 1;
    var g := Grouped(tb, tokens[..n]);
    assert Grouped(tb, tokens) == g + [TimestampPiece(tokens[n] - tb), TextPiece([])];
    UngroupTimestampStep(tb, g, tokens[n]);
  }

  /** Grouping one more text token adds exactly that token to what the
      pieces stand for. */
  lemma UngroupGroupedText(tb: int, tokens: seq<int>)
    requires tokens != [] && tokens[|tokens| - 1] < tb
    ensures Ungroup(tb, Grouped(tb, tokens)) ==
            Ungroup(tb, Grouped(tb, tokens[..|tokens| - 1])) + [tokens[|tokens| - 1]]
  {
    var n := |tokens| - 1;
    var g := Grouped(tb, tokens[..n]);
    assert Grouped(tb, tokens) == g[..|g| - 1] + [TextPiece(g[|g| - 1].tokens + [tokens[n]])];
    UngroupTextStep(tb, g, tokens[n]);
  }

  /** Grouping loses and reorders nothing: the pieces stand for the tokens. */
  lemma {:induction false} UngroupGrouped(tb: int, tokens: seq<int>)
    ensures Ungroup(tb, Grouped(tb, tokens)) == tokens
    decreases |tokens|
  {
    if tokens != [] {
      var n := |tokens| - 1;
      UngroupGrouped(tb, tokens[..n]);
      if tokens[n] >= tb {
        UngroupGroupedTimestamp(tb, tokens);
      } else {
        UngroupGroupedText(tb, tokens);
      }
      SplitLast(tokens);
    }
  }

  /** Text and timestamp pieces alternate, starting and ending with text,
      and text pieces hold only tokens below timestamp_begin. */
  predicate Alternating(tb: int, r: seq<Piece>)
  {
    |r| % 2 == 1 &&
    (forall k :: 0 <= k < |r| ==> (r[k].TextPiece? <==> k % 2 == 0)) &&
    (forall k, j :: 0 <= k < |r| && r[k].TextPiece? && 0 <= j < |r[k].tokens| ==> r[k].tokens[j] < tb)
  }

  lemma AlternatingTimestampStep(tb: int, g: seq<Piece>, x: int)
    requires Alternating(tb, g) && x >= tb
    ensures Alternating(tb, g + [TimestampPiece(x - tb), TextPiece([])])
  {
    var r := g + [TimestampPiece(x - tb), TextPiece([])];
    assert forall k :: 0 <= k < |g| ==> r[k] == g[k];
  }

  lemma AlternatingTextStep(tb: int, g: seq<Piece>, x: int)
    requires Alternating(tb, g) && x < tb
    ensures Alternating(tb, g[..|g| - 1] + [TextPiece(g[|g| - 1].tokens + [x])])
  {
    var m := |g| - 1;
    var r := g[..m] + [TextPiece(g[m].tokens + [x])];
    assert forall k :: 0 <= k < m ==> r[k] == g[k];
    assert r[m].tokens == g[m].tokens + [x];
  }

  /** The grouped pieces alternate as Alternating says. */
  lemma {:induction false} GroupedShape(tb: int, tokens: seq<int>)
    ensures Alternating(tb, Grouped(tb, tokens))
    decreases |tokens|
  {
    if tokens != [] {
      var n := |tokens| - 1;
      var g := Grouped(tb, tokens[..n]);
      GroupedShape(tb, tokens[..n]);
      var x := tokens[n];
      if x >= tb {
        assert Grouped(tb, tokens) == g + [TimestampPiece(x - tb), TextPiece([])];
        AlternatingTimestampStep(tb, g, x);
      } else {
        assert Grouped(tb, tokens) == g[..|g| - 1] + [TextPiece(g[|g| - 1].tokens + [x])];
        AlternatingTextStep(tb, g, x);
      }
    }
  }

  /** Two decimal digits, with a leading zero. */
  function TwoDigits(n: nat): (s: string)
    requires n < 100
    ensures |s| == 2 && AllDigits(s) && DigitsValue(s) == n
  {
    var s := [DigitChar(n / 10), DigitChar(n % 10)];
    assert s[..1] == [DigitChar(n / 10)] && s[..1][..0] == [];
    assert DigitsValue(s[..1]) == n / 10;
    s
  }

  /** f"<|{index * 0.02:.2f}|>": index * 0.02 seconds is exactly 2 * index
      hundredths, so the two decimals are exact. */
  function TimestampText(index: nat): (r: string)
    ensures |r| >= 7 && r[..2] == "<|" && r[|r| - 2..] == "|>"
    ensures r[|r| - 5] == '.'
  {
    "<|" + NatToString(2 * index / 100) + "." + TwoDigits(2 * index % 100) + "|>"
  }

  /** The timestamp text reads back as 2 * index hundredths of a second. */
  lemma TimestampTextValue(index: nat)
    ensures exists whole: string, frac: string ::
              AllDigits(whole) && AllDigits(frac) && |whole| > 0 && |frac| == 2 &&
              TimestampText(index) == "<|" + whole + "." + frac + "|>" &&
              DigitsValue(whole) * 100 + DigitsValue(frac) == 2 * index
  {
    var whole := NatToString(2 * index / 100);
    var frac := TwoDigits(2 * index % 100);
    DigitsValueOfNatToString(2 * index / 100);
    assert DigitsValue(whole) * 100 + DigitsValue(frac) == 2 * index;
  }

  /** The text of one piece: a decoded run, or its timestamp text. */
  function PieceText(t: Tokenizer, p: Piece): string
  {
    match p
    case TextPiece(ts) => t.backend.decode(ts)
    case TimestampPiece(k) => TimestampText(k)
  }

  /** "".join over the pieces' texts. */
  function JoinPieces(t: Tokenizer, pieces: seq<Piece>): string
  {
    if pieces == [] then [] else JoinPieces(t, pieces[..|pieces| - 1]) + PieceText(t, pieces[|pieces| - 1])
  }

  /** What decode_with_timestamps returns. */
  function DecodedWithTimestamps(t: Tokenizer, tokens: seq<int>): string
  {
    JoinPieces(t, Grouped(TimestampBegin(t), tokens))
  }

  /** decode_with_timestamps: the grouping loop, then the join. */
  method DecodeWithTimestamps(t: Tokenizer, tokens: seq<int>) returns (text: string)
    ensures text == DecodedWithTimestamps(t, tokens)
  {
    var tb := TimestampBegin(t);
    var outputs: seq<Piece> := [TextPiece([])];
    var k := 0;
    while k < |tokens|
      invariant 0 <= k <= |tokens|
      invariant outputs == Grouped(tb, tokens[..k])
    {
      var token := tokens[k];
      assert tokens[..k + 1][..k] == tokens[..k];
      if token >= tb {
        outputs := outputs + [TimestampPiece(token - tb), TextPiece([])];
      } else {
        var last := |outputs| - 1;
        outputs := outputs[..last] + [TextPiece(outputs[last].tokens + [token])];
      }
      k := k + 1;
    }
    assert tokens[..k] == tokens;
    text := JoinPieces(t, outputs);
  }

  // ---------------------------------------------------------------------
  // split_tokens_on_unicode
  // ---------------------------------------------------------------------

  /** U+FFFD, what the decoder emits for an incomplete UTF-8 sequence. */
  const Replacement: char := '\U{FFFD}'

  /** str.index(c), with -1 where Python raises ValueError. */
  function IndexOf(s: string, c: char): (r: int)
    ensures -1 <= r < |s|
    ensures r >= 0 ==> s[r] == c && forall j :: 0 <= j < r ==> s[j] != c
    ensures r == -1 ==> forall j :: 0 <= j < |s| ==> s[j] != c
  {
    if s == [] then -1
    else if s[0] == c then 0
    else
      var i := IndexOf(s[1..], c);
      if i < 0 then -1 else i + 1
  }

  /** Words and the token groups they decode from, as the splitters return
      them. */
  datatype WordSplit = WordSplit(words: seq<string>, wordTokens: seq<seq<int>>)

  /** The loop state of split_tokens_on_unicode: the words and groups so far,
      the tokens not yet flushed, and unicode_offset. */
  datatype UnicodeState = UnicodeState(words: seq<string>, wordTokens: seq<seq<int>>,
                                       current: seq<int>, offset: nat)

  /** The flush test: the decoded run has no replacement character, or the
      one it has is also in the fully decoded text at the same position (so
      it is genuine, not an incomplete sequence). */
  predicate Flushes(full: string, decoded: string, offset: nat)
  {
    var i := IndexOf(decoded, Replacement);
    i < 0 || (i + offset < |full| && full[i + offset] == Replacement)
  }

  /** One iteration of the loop over tokens. */
  function UnicodeStep(t: Tokenizer, full: string, s: UnicodeState, token: int): (r: UnicodeState)
    ensures r.current == [] <==> Flushes(full, DecodedWithTimestamps(t, s.current + [token]), s.offset)
    ensures r.current == [] ==>
              r.words == s.words + [DecodedWithTimestamps(t, s.current + [token])] &&
              r.wordTokens == s.wordTokens + [s.current + [token]] &&
              r.offset == s.offset + |DecodedWithTimestamps(t, s.current + [token])|
    ensures r.current != [] ==>
              r.current == s.current + [token] && r.words == s.words && r.wordTokens == s.wordTokens &&
              r.offset == s.offset
  {
    var current := s.current + [token];
    var decoded := DecodedWithTimestamps(t, current);
    if Flushes(full, decoded, s.offset)
    then UnicodeState(s.words + [decoded], s.wordTokens + [current], [], s.offset + |decoded|)
    else s.(current := current)
  }

  /** The loop state after the given tokens. */
  function UnicodeRun(t: Tokenizer, full: string, tokens: seq<int>): (r: UnicodeState)
    ensures |r.words| == |r.wordTokens|
    ensures |r.wordTokens| + |r.current| <= |tokens|
  {
    if tokens == [] then UnicodeState([], [], [], 0)
    else UnicodeStep(t, full, UnicodeRun(t, full, tokens[..|tokens| - 1]), tokens[|tokens| - 1])
  }

  lemma UnicodeRunSnoc(t: Tokenizer, full: string, tokens: seq<int>, k: nat)
    requires k < |tokens|
    ensures UnicodeRun(t, full, tokens[..k + 1]) == UnicodeStep(t, full, UnicodeRun(t, full, tokens[..k]), tokens[k])
  {
    assert tokens[..k + 1][..k] == tokens[..k];
  }

  /** What the loop keeps: one group per word, no empty group, each word the
      decoding of its group, the groups followed by the unflushed tokens are
      exactly the input, and unicode_offset is the length of the words. */
  predicate UnicodeInvariant(t: Tokenizer, tokens: seq<int>, s: UnicodeState)
  {
    |s.words| == |s.wordTokens| &&
    (forall k :: 0 <= k < |s.wordTokens| ==> s.wordTokens[k] != []) &&
    (forall k :: 0 <= k < |s.words| ==> s.words[k] == DecodedWithTimestamps(t, s.wordTokens[k])) &&
    Flatten(s.wordTokens) + s.current == tokens &&
    s.offset == |Flatten(s.words)|
  }

  /** One iteration keeps the invariant. */
  lemma UnicodeStepInvariant(t: Tokenizer, full: string, prefix: seq<int>, s: UnicodeState, token: int,
                             tokens: seq<int>)
    requires UnicodeInvariant(t, prefix, s) && tokens == prefix + [token]
    ensures UnicodeInvariant(t, tokens, UnicodeStep(t, full, s, token))
  {
    var current := s.current + [token];
    var decoded := DecodedWithTimestamps(t, current);
    if Flushes(full, decoded, s.offset) {
      var r := UnicodeState(s.words + [decoded], s.wordTokens + [current], [], s.offset + |decoded|);
      assert UnicodeStep(t, full, s, token) == r;
      FlattenSnoc(s.wordTokens, current);
      FlattenSnoc(s.words, decoded);
      assert Flatten(r.wordTokens) + r.current == tokens;
    } else {
      assert UnicodeStep(t, full, s, token) == s.(current := current);
    }
  }

  lemma {:induction false} UnicodeRunInvariant(t: Tokenizer, full: string, tokens: seq<int>)
    ensures UnicodeInvariant(t, tokens, UnicodeRun(t, full, tokens))
    decreases |tokens|
  {
    if tokens != [] {
      var n := |tokens| - 1;
      var prefix, token := tokens[..n], tokens[n];
      var s := UnicodeRun(t, full, prefix);
      assert prefix + [token] == tokens;
      UnicodeRunInvariant(t, full, prefix);
      UnicodeStepInvariant(t, full, prefix, s, token, tokens);
    }
  }

  /** split_tokens_on_unicode's result. */
  function UnicodeSplit(t: Tokenizer, tokens: seq<int>): (r: WordSplit)
    ensures |r.words| == |r.wordTokens|
    ensures forall k :: 0 <= k < |r.wordTokens| ==> r.wordTokens[k] != []
    ensures forall k :: 0 <= k < |r.words| ==> r.words[k] == DecodedWithTimestamps(t, r.wordTokens[k])
    ensures Flatten(r.wordTokens) <= tokens
  {
    var full := DecodedWithTimestamps(t, tokens);
    UnicodeRunInvariant(t, full, tokens);
    var s := UnicodeRun(t, full, tokens);
    WordSplit(s.words, s.wordTokens)
  }

  /** A group is cut where its run first passes the flush test: the whole
      group passes at the word's offset, and no shorter non-empty run of it
      does. */
  predicate FirstFlush(t: Tokenizer, full: string, offset: nat, group: seq<int>)
  {
    Flushes(full, DecodedWithTimestamps(t, group), offset) &&
    forall j :: 0 < j < |group| ==> !Flushes(full, DecodedWithTimestamps(t, group[..j]), offset)
  }

  /** The cut positions the loop keeps: every finished group is cut at its
      first flush, at the length of the words before it, and no non-empty
      prefix of the pending run passes the test. */
  predicate UnicodeCuts(t: Tokenizer, full: string, s: UnicodeState)
  {
    GroupsCut(t, full, s.words, s.wordTokens) && PendingUncut(t, full, s.current, s.offset)
  }

  predicate GroupsCut(t: Tokenizer, full: string, words: seq<string>, wordTokens: seq<seq<int>>)
  {
    forall k :: 0 <= k < |wordTokens| && k <= |words| ==> FirstFlush(t, full, |Flatten(words[..k])|, wordTokens[k])
  }

  predicate PendingUncut(t: Tokenizer, full: string, current: seq<int>, offset: nat)
  {
    forall j :: 0 < j <= |current| ==> !Flushes(full, DecodedWithTimestamps(t, current[..j]), offset)
  }

  /** A flushing run whose shorter prefixes never passed is cut at its first
      flush. */
  lemma PendingFirstFlush(t: Tokenizer, full: string, current: seq<int>, token: int, offset: nat)
    requires PendingUncut(t, full, current, offset)
    requires Flushes(full, DecodedWithTimestamps(t, current + [token]), offset)
    ensures FirstFlush(t, full, offset, current + [token])
  {
    var g := current + [token];
    forall j | 0 < j < |g|
      ensures !Flushes(full, DecodedWithTimestamps(t, g[..j]), offset)
    {
      assert g[..j] == current[..j];
    }
  }

  /** A group cut at its first flush, at the length of the words before it,
      extends the cut groups. */
  lemma GroupsCutSnoc(t: Tokenizer, full: string, words: seq<string>, wordTokens: seq<seq<int>>,
                      word: string, group: seq<int>)
    requires |words| == |wordTokens| && GroupsCut(t, full, words, wordTokens)
    requires FirstFlush(t, full, |Flatten(words)|, group)
    ensures GroupsCut(t, full, words + [word], wordTokens + [group])
  {
    var ws, gs := words + [word], wordTokens + [group];
    forall k | 0 <= k < |gs| && k <= |ws|
      ensures FirstFlush(t, full, |Flatten(ws[..k])|, gs[k])
    {
      assert ws[..k] == words[..k];
      if k == |words| {
        assert words[..k] == words;
      } else {
        assert gs[k] == wordTokens[k];
      }
    }
  }

  /** A flushing step cuts the pending run plus the token as a new group. */
  lemma UnicodeCutsFlush(t: Tokenizer, full: string, s: UnicodeState, token: int)
    requires |s.words| == |s.wordTokens| && s.offset == |Flatten(s.words)| && UnicodeCuts(t, full, s)
    requires Flushes(full, DecodedWithTimestamps(t, s.current + [token]), s.offset)
    ensures UnicodeCuts(t, full, UnicodeStep(t, full, s, token))
  {
    PendingFirstFlush(t, full, s.current, token, s.offset);
    GroupsCutSnoc(t, full, s.words, s.wordTokens, DecodedWithTimestamps(t, s.current + [token]), s.current + [token]);
  }

  /** A step that does not flush extends a pending run none of whose
      prefixes passes the test. */
  lemma UnicodeCutsHold(t: Tokenizer, full: string, s: UnicodeState, token: int)
    requires UnicodeCuts(t, full, s)
    requires !Flushes(full, DecodedWithTimestamps(t, s.current + [token]), s.offset)
    ensures UnicodeCuts(t, full, UnicodeStep(t, full, s, token))
  {
    var g := s.current + [token];
    var r := UnicodeStep(t, full, s, token);
    assert r == s.(current := g);
    forall j | 0 < j <= |g|
      ensures !Flushes(full, DecodedWithTimestamps(t, g[..j]), s.offset)
    {
      if j < |g| {
        assert g[..j] == s.current[..j];
      } else {
        assert g[..j] == g;
      }
    }
  }

  lemma {:induction false} UnicodeRunCuts(t: Tokenizer, full: string, tokens: seq<int>)
    ensures UnicodeCuts(t, full, UnicodeRun(t, full, tokens))
    decreases |tokens|
  {
    if tokens != [] {
      var n := |tokens| - 1;
      var prefix, token := tokens[..n], tokens[n];
      var s := UnicodeRun(t, full, prefix);
      UnicodeRunCuts(t, full, prefix);
      UnicodeRunInvariant(t, full, prefix);
      if Flushes(full, DecodedWithTimestamps(t, s.current + [token]), s.offset) {
        UnicodeCutsFlush(t, full, s, token);
      } else {
        UnicodeCutsHold(t, full, s, token);
      }
    }
  }

  /** The pending run of a state that keeps the invariant and the cuts is
      the input after the groups, and no non-empty prefix of it passes. */
  lemma PendingNeverFlushes(t: Tokenizer, full: string, tokens: seq<int>, s: UnicodeState)
    requires Flatten(s.wordTokens) + s.current == tokens && PendingUncut(t, full, s.current, s.offset)
    ensures forall j :: |Flatten(s.wordTokens)| < j <= |tokens| ==>
              !Flushes(full, DecodedWithTimestamps(t, tokens[|Flatten(s.wordTokens)|..j]), s.offset)
  {
    var n := |Flatten(s.wordTokens)|;
    assert s.current == tokens[n..];
    forall j | n < j <= |tokens|
      ensures !Flushes(full, DecodedWithTimestamps(t, tokens[n..j]), s.offset)
    {
      assert tokens[n..j] == s.current[..j - n];
    }
  }

  /** The cuts of a split: word k's group is cut at its first flush, judged
      at the text length of the words before it, and no non-empty prefix of
      the tokens after the last group passes. */
  predicate SplitCuts(t: Tokenizer, tokens: seq<int>, r: WordSplit)
    requires |r.words| == |r.wordTokens|
  {
    (forall k :: 0 <= k < |r.wordTokens| ==>
       FirstFlush(t, DecodedWithTimestamps(t, tokens), |Flatten(r.words[..k])|, r.wordTokens[k])) &&
    (forall j :: |Flatten(r.wordTokens)| < j <= |tokens| ==>
       !Flushes(DecodedWithTimestamps(t, tokens), DecodedWithTimestamps(t, tokens[|Flatten(r.wordTokens)|..j]),
                |Flatten(r.words)|))
  }

  /** Where split_tokens_on_unicode cuts: each group is the shortest run
      after the earlier groups that decodes to complete characters at its
      offset in the full decoding; the tokens after the last group are a run
      that never passes, and they are dropped. */
  lemma UnicodeSplitCuts(t: Tokenizer, tokens: seq<int>)
    ensures SplitCuts(t, tokens, UnicodeSplit(t, tokens))
  {
    var full := DecodedWithTimestamps(t, tokens);
    var s := UnicodeRun(t, full, tokens);
    UnicodeRunInvariant(t, full, tokens);
    UnicodeRunCuts(t, full, tokens);
    PendingNeverFlushes(t, full, tokens, s);
    assert UnicodeSplit(t, tokens) == WordSplit(s.words, s.wordTokens);
  }

  /** Every token decodes on its own to complete characters. */
  predicate WholeTokens(t: Tokenizer, tokens: seq<int>)
  {
    forall k :: 0 <= k < |tokens| ==> IndexOf(DecodedWithTimestamps(t, [tokens[k]]), Replacement) < 0
  }

  /** One group per token, in order. */
  predicate Singletons(groups: seq<seq<int>>, tokens: seq<int>)
  {
    |groups| == |tokens| && forall k :: 0 <= k < |tokens| ==> groups[k] == [tokens[k]]
  }

  /** When every token decodes on its own to complete characters, every
      token is a word of its own and nothing is dropped. */
  lemma UnicodeSplitValidTokens(t: Tokenizer, tokens: seq<int>)
    requires WholeTokens(t, tokens)
    ensures |UnicodeSplit(t, tokens).wordTokens| == |tokens|
    ensures forall k :: 0 <= k < |tokens| ==> UnicodeSplit(t, tokens).wordTokens[k] == [tokens[k]]
  {
    var full := DecodedWithTimestamps(t, tokens);
    UnicodeRunSingletons(t, full, tokens);
    assert UnicodeSplit(t, tokens).wordTokens == UnicodeRun(t, full, tokens).wordTokens;
  }

  /** From an empty pending run, a token that decodes to complete characters
      is flushed as a word of its own. */
  lemma UnicodeStepSingleton(t: Tokenizer, full: string, s: UnicodeState, token: int)
    requires s.current == [] && IndexOf(DecodedWithTimestamps(t, [token]), Replacement) < 0
    ensures UnicodeStep(t, full, s, token).current == []
    ensures UnicodeStep(t, full, s, token).wordTokens == s.wordTokens + [[token]]
  {
    assert s.current + [token] == [token];
  }

  /** The same step, read on runs: the last token becomes its own group. */
  lemma UnicodeRunSingletonStep(t: Tokenizer, full: string, tokens: seq<int>)
    requires tokens != [] && UnicodeRun(t, full, tokens[..|tokens| - 1]).current == []
    requires IndexOf(DecodedWithTimestamps(t, [tokens[|tokens| - 1]]), Replacement) < 0
    ensures UnicodeRun(t, full, tokens).current == []
    ensures UnicodeRun(t, full, tokens).wordTokens ==
              UnicodeRun(t, full, tokens[..|tokens| - 1]).wordTokens + [[tokens[|tokens| - 1]]]
  {
    UnicodeStepSingleton(t, full, UnicodeRun(t, full, tokens[..|tokens| - 1]), tokens[|tokens| - 1]);
  }

  lemma WholeTokensPrefix(t: Tokenizer, tokens: seq<int>)
    requires tokens != [] && WholeTokens(t, tokens)
    ensures WholeTokens(t, tokens[..|tokens| - 1])
    ensures IndexOf(DecodedWithTimestamps(t, [tokens[|tokens| - 1]]), Replacement) < 0
  {
    var prefix := tokens[..|tokens| - 1];
    forall k | 0 <= k < |prefix|
      ensures IndexOf(DecodedWithTimestamps(t, [prefix[k]]), Replacement) < 0
    {
      assert prefix[k] == tokens[k];
    }
  }

  lemma SingletonsSnoc(groups: seq<seq<int>>, tokens: seq<int>)
    requires tokens != [] && |groups| >= 1
    requires Singletons(groups[..|groups| - 1], tokens[..|tokens| - 1]) && groups[|groups| - 1] == [tokens[|tokens| - 1]]
    ensures Singletons(groups, tokens)
  {
    var n := |tokens| - 1;
    forall k | 0 <= k < |tokens|
      ensures groups[k] == [tokens[k]]
    {
      if k < n {
        assert groups[..n][k] == groups[k] && tokens[..n][k] == tokens[k];
      }
    }
  }

  lemma SingletonsStep(groups: seq<seq<int>>, tokens: seq<int>)
    requires tokens != [] && Singletons(groups, tokens[..|tokens| - 1])
    ensures Singletons(groups + [[tokens[|tokens| - 1]]], tokens)
  {
    var g := groups + [[tokens[|tokens| - 1]]];
    assert g[..|g| - 1] == groups;
    SingletonsSnoc(g, tokens);
  }

  lemma {:induction false} UnicodeRunSingletons(t: Tokenizer, full: string, tokens: seq<int>)
    requires WholeTokens(t, tokens)
    ensures UnicodeRun(t, full, tokens).current == []
    ensures Singletons(UnicodeRun(t, full, tokens).wordTokens, tokens)
    decreases |tokens|
  {
    if tokens != [] {
      var n := |tokens| - 1;
      WholeTokensPrefix(t, tokens);
      UnicodeRunSingletons(t, full, tokens[..n]);
      UnicodeRunSingletonStep(t, full, tokens);
      SingletonsStep(UnicodeRun(t, full, tokens[..n]).wordTokens, tokens);
    }
  }

  /** One iteration of the loop of split_tokens_on_unicode: extend the
      run, decode it, and flush it as a word when the test passes. */
  method UnicodeIteration(t: Tokenizer, decodedFull: string, words: seq<string>, wordTokens: seq<seq<int>>,
                          currentTokens: seq<int>, unicodeOffset: nat, token: int)
    returns (words': seq<string>, wordTokens': seq<seq<int>>, currentTokens': seq<int>, unicodeOffset': nat)
    ensures UnicodeState(words', wordTokens', currentTokens', unicodeOffset') ==
            UnicodeStep(t, decodedFull, UnicodeState(words, wordTokens, currentTokens, unicodeOffset), token)
  {
    words', wordTokens', currentTokens', unicodeOffset' := words, wordTokens, currentTokens + [token], unicodeOffset;
    var decoded := DecodeWithTimestamps(t, currentTokens');
    var index := IndexOf(decoded, Replacement);
    var replacementCharIndex: Option<int> := if index < 0 then None else Some(index + unicodeOffset);
    if replacementCharIndex.None? ||
       (replacementCharIndex.value < |decodedFull| && decodedFull[replacementCharIndex.value] == Replacement) {
      words' := words' + [decoded];
      wordTokens' := wordTokens' + [currentTokens'];
      currentTokens' := [];
      unicodeOffset' := unicodeOffset' + |decoded|;
    }
  }

  /** split_tokens_on_unicode: grow a run token by token and flush it as a
      word as soon as it decodes to complete characters; a trailing run that
      never does is dropped. */
  method SplitTokensOnUnicode(t: Tokenizer, tokens: seq<int>) returns (r: WordSplit)
    ensures r == UnicodeSplit(t, tokens)
  {
    var decodedFull := DecodeWithTimestamps(t, tokens);
    var words: seq<string> := [];
    var wordTokens: seq<seq<int>> := [];
    var currentTokens: seq<int> := [];
    var unicodeOffset: nat := 0;
    var k := 0;
    assert tokens[..0] == [];
    while k < |tokens|
      invariant 0 <= k <= |tokens|
      invariant UnicodeState(words, wordTokens, currentTokens, unicodeOffset) ==
                UnicodeRun(t, decodedFull, tokens[..k])
    {
      words, wordTokens, currentTokens, unicodeOffset :=
        UnicodeIteration(t, decodedFull, words, wordTokens, currentTokens, unicodeOffset, tokens[k]);
      UnicodeRunSnoc(t, decodedFull, tokens, k);
      k := k + 1;
    }
    assert tokens[..k] == tokens;
    r := WordSplit(words, wordTokens);
  }

  // ---------------------------------------------------------------------
  // Merging subwords into words (split_tokens_on_spaces / _on_multi)
  // ---------------------------------------------------------------------

  /** string.punctuation */
  const Punctuation: string := "!\"#$%&'()*+,-./:;<=>?@[\\]^_`{|}~"

  /** The merge after one more subword, in terms of the merge before it. */
  function MergeOne(p: WordSplit, subword: string, subTokens: seq<int>, start: bool): WordSplit
  {
    if start || |p.words| == 0 || |p.wordTokens| == 0 then WordSplit(p.words + [subword], p.wordTokens + [subTokens])
    else
      WordSplit(p.words[..|p.words| - 1] + [p.words[|p.words| - 1] + subword],
                p.wordTokens[..|p.wordTokens| - 1] + [p.wordTokens[|p.wordTokens| - 1] + subTokens])
  }

  /** The words after merging subwords: a subword whose flag is set, or the
      first one, starts a new word; any other is appended to the last word,
      its tokens to the last group. */
  function Merged(subwords: seq<string>, subTokens: seq<seq<int>>, starts: seq<bool>): (r: WordSplit)
    requires |subwords| == |subTokens| == |starts|
    ensures |r.words| == |r.wordTokens|
    ensures |r.words| == 0 <==> |subwords| == 0
  {
    if subwords == [] then WordSplit([], [])
    else
      var n := |subwords| - 1;
      MergeOne(Merged(subwords[..n], subTokens[..n], starts[..n]), subwords[n], subTokens[n], starts[n])
  }

  /** The number of subwords that start a word: the first, and every one
      whose flag is set. */
  function WordStarts(starts: seq<bool>): nat
  {
    if starts == [] then 0
    else WordStarts(starts[..|starts| - 1]) + (if |starts| == 1 || starts[|starts| - 1] then 1 else 0)
  }

  lemma MergedPrefix(subwords: seq<string>, subTokens: seq<seq<int>>, starts: seq<bool>, k: nat)
    requires |subwords| == |subTokens| == |starts| && k < |subwords|
    ensures Merged(subwords[..k + 1], subTokens[..k + 1], starts[..k + 1]) ==
            MergeOne(Merged(subwords[..k], subTokens[..k], starts[..k]), subwords[k], subTokens[k], starts[k])
  {
    assert subwords[..k + 1][..k] == subwords[..k];
    assert subTokens[..k + 1][..k] == subTokens[..k];
    assert starts[..k + 1][..k] == starts[..k];
  }

  /** One merge step appends the subword to the text and its tokens to the
      token stream. */
  lemma MergeOneFlatten(p: WordSplit, subword: string, subTokens: seq<int>, start: bool)
    requires |p.words| == |p.wordTokens|
    ensures Flatten(MergeOne(p, subword, subTokens, start).words) == Flatten(p.words) + subword
    ensures Flatten(MergeOne(p, subword, subTokens, start).wordTokens) == Flatten(p.wordTokens) + subTokens
  {
    if start || |p.words| == 0 {
      FlattenSnoc(p.words, subword);
      FlattenSnoc(p.wordTokens, subTokens);
    } else {
      FlattenExtendLast(p.words, subword);
      FlattenExtendLast(p.wordTokens, subTokens);
    }
  }

  /** Merging loses and reorders nothing: the words concatenate to the
      subwords, and the groups to the subword groups. */
  lemma {:induction false} MergedFlatten(subwords: seq<string>, subTokens: seq<seq<int>>, starts: seq<bool>)
    requires |subwords| == |subTokens| == |starts|
    ensures Flatten(Merged(subwords, subTokens, starts).words) == Flatten(subwords)
    ensures Flatten(Merged(subwords, subTokens, starts).wordTokens) == Flatten(subTokens)
    decreases |subwords|
  {
    if subwords != [] {
      var n := |subwords| - 1;
      var p := Merged(subwords[..n], subTokens[..n], starts[..n]);
      MergedFlatten(subwords[..n], subTokens[..n], starts[..n]);
      MergeOneFlatten(p, subwords[n], subTokens[n], starts[n]);
    }
  }

  /** There is one word per subword that starts one. */
  lemma {:induction false} MergedCount(subwords: seq<string>, subTokens: seq<seq<int>>, starts: seq<bool>)
    requires |subwords| == |subTokens| == |starts|
    ensures |Merged(subwords, subTokens, starts).words| == WordStarts(starts)
    decreases |subwords|
  {
    if subwords != [] {
      var n := |subwords| - 1;
      MergedCount(subwords[..n], subTokens[..n], starts[..n]);
      assert starts[..|starts| - 1] == starts[..n];
    }
  }

  /** No group is empty when no subword group is. */
  lemma {:induction false} MergedNonEmpty(subwords: seq<string>, subTokens: seq<seq<int>>, starts: seq<bool>)
    requires |subwords| == |subTokens| == |starts|
    requires forall k :: 0 <= k < |subTokens| ==> subTokens[k] != []
    ensures forall k :: 0 <= k < |Merged(subwords, subTokens, starts).wordTokens| ==>
                          Merged(subwords, subTokens, starts).wordTokens[k] != []
    decreases |subwords|
  {
    if subwords != [] {
      var n := |subwords| - 1;
      var p := Merged(subwords[..n], subTokens[..n], starts[..n]);
      MergedNonEmpty(subwords[..n], subTokens[..n], starts[..n]);
      var r := Merged(subwords, subTokens, starts);
      assert subTokens[n] != [];
      if starts[n] || |p.words| == 0 {
        assert r.wordTokens == p.wordTokens + [subTokens[n]];
        forall k | 0 <= k < |r.wordTokens| ensures r.wordTokens[k] != [] {
          if k < |p.wordTokens| {
            assert p.wordTokens[k] != [];
            assert r.wordTokens[k] == p.wordTokens[k];
          }
        }
      } else {
        var m := |p.words| - 1;
        assert r.wordTokens == p.wordTokens[..m] + [p.wordTokens[m] + subTokens[n]];
        forall k | 0 <= k < |r.wordTokens| ensures r.wordTokens[k] != [] {
          if k < m {
            assert r.wordTokens[k] == p.wordTokens[k];
          } else {
            assert r.wordTokens[k] == p.wordTokens[m] + subTokens[n];
          }
        }
      }
    }
  }

  /** The flag split_tokens_on_spaces tests: a special token first, a
      leading space, or a stripped text that occurs in string.punctuation
      (a substring test, so the empty string and runs such as "()" pass). */
  predicate SpacesBoundary(t: Tokenizer, subword: string, subTokens: seq<int>)
    requires subTokens != []
  {
    subTokens[0] >= Eot(t) || (|subword| > 0 && subword[0] == ' ') || IsSubstring(Strip(subword), Punctuation)
  }

  /** A subword split whose groups are non-empty and paired with the words. */
  predicate WellFormedSplit(u: WordSplit)
  {
    |u.words| == |u.wordTokens| && forall k :: 0 <= k < |u.wordTokens| ==> u.wordTokens[k] != []
  }

  function SpaceStarts(t: Tokenizer, u: WordSplit): (r: seq<bool>)
    requires WellFormedSplit(u)
    ensures |r| == |u.words|
  {
    seq(|u.words|, k requires 0 <= k < |u.words| => SpacesBoundary(t, u.words[k], u.wordTokens[k]))
  }

  /** split_tokens_on_spaces's result. */
  function SpacesSplit(t: Tokenizer, tokens: seq<int>): WordSplit
  {
    var u := UnicodeSplit(t, tokens);
    Merged(u.words, u.wordTokens, SpaceStarts(t, u))
  }

  /** split_tokens_on_spaces: words and groups pair up, concatenate to the
      same text and tokens as the unicode split's, none is empty, and there
      are as many words as subwords that start one. */
  lemma SpacesSplitProperties(t: Tokenizer, tokens: seq<int>)
    ensures |SpacesSplit(t, tokens).words| == |SpacesSplit(t, tokens).wordTokens|
    ensures Flatten(SpacesSplit(t, tokens).words) == Flatten(UnicodeSplit(t, tokens).words)
    ensures Flatten(SpacesSplit(t, tokens).wordTokens) == Flatten(UnicodeSplit(t, tokens).wordTokens)
    ensures Flatten(SpacesSplit(t, tokens).wordTokens) <= tokens
    ensures |SpacesSplit(t, tokens).words| == WordStarts(SpaceStarts(t, UnicodeSplit(t, tokens)))
    ensures forall k :: 0 <= k < |SpacesSplit(t, tokens).wordTokens| ==> SpacesSplit(t, tokens).wordTokens[k] != []
  {
    var u := UnicodeSplit(t, tokens);
    MergedFlatten(u.words, u.wordTokens, SpaceStarts(t, u));
    MergedCount(u.words, u.wordTokens, SpaceStarts(t, u));
    MergedNonEmpty(u.words, u.wordTokens, SpaceStarts(t, u));
  }

  /** One iteration of split_tokens_on_spaces's loop over the subwords. */
  method SpacesIteration(t: Tokenizer, words: seq<string>, wordTokens: seq<seq<int>>,
                         subword: string, subwordTokens: seq<int>)
    returns (words': seq<string>, wordTokens': seq<seq<int>>)
    requires |words| == |wordTokens| && subwordTokens != []
    ensures WordSplit(words', wordTokens') ==
            MergeOne(WordSplit(words, wordTokens), subword, subwordTokens, SpacesBoundary(t, subword, subwordTokens))
  {
    var special := subwordTokens[0] >= Eot(t);
    var withSpace := |subword| > 0 && subword[0] == ' ';
    var punctuation := IsSubstring(Strip(subword), Punctuation);
    if special || withSpace || punctuation || |words| == 0 {
      words' := words + [subword];
      wordTokens' := wordTokens + [subwordTokens];
    } else {
      words' := words[..|words| - 1] + [words[|words| - 1] + subword];
      wordTokens' := wordTokens[..|wordTokens| - 1] + [wordTokens[|wordTokens| - 1] + subwordTokens];
    }
  }

  /** The loop of split_tokens_on_spaces over the subwords. */
  method MergeOnSpaces(t: Tokenizer, u: WordSplit) returns (r: WordSplit)
    requires WellFormedSplit(u)
    ensures r == Merged(u.words, u.wordTokens, SpaceStarts(t, u))
  {
    ghost var starts := SpaceStarts(t, u);
    var words: seq<string> := [];
    var wordTokens: seq<seq<int>> := [];
    for k := 0 to |u.words|
      invariant WordSplit(words, wordTokens) == Merged(u.words[..k], u.wordTokens[..k], starts[..k])
    {
      words, wordTokens := SpacesIteration(t, words, wordTokens, u.words[k], u.wordTokens[k]);
      assert starts[k] == SpacesBoundary(t, u.words[k], u.wordTokens[k]);
      MergedPrefix(u.words, u.wordTokens, starts, k);
    }
    assert u.words[..|u.words|] == u.words;
    assert u.wordTokens[..|u.words|] == u.wordTokens;
    assert starts[..|u.words|] == starts;
    r := WordSplit(words, wordTokens);
  }

  /** split_tokens_on_spaces. */
  method SplitTokensOnSpaces(t: Tokenizer, tokens: seq<int>) returns (r: WordSplit)
    ensures r == SpacesSplit(t, tokens)
  {
    var u := SplitTokensOnUnicode(t, tokens);
    r := MergeOnSpaces(t, u);
  }

  // ---------------------------------------------------------------------
  // split_tokens_on_multi
  // ---------------------------------------------------------------------

  /** How many characters of s get_char_lang assigns to l. */
  function LangCount(s: string, l: Lang): nat
  {
    if s == [] then 0
    else LangCount(s[..|s| - 1], l) + (if CharLang(s[|s| - 1] as int) == l then 1 else 0)
  }

  /** Every character is counted under exactly one script. */
  lemma {:induction false} LangCountTotal(s: string)
    ensures LangCount(s, Zh) + LangCount(s, Ja) + LangCount(s, Ko) + LangCount(s, Th) +
            LangCount(s, Lo) + LangCount(s, My) + LangCount(s, Other) == |s|
    decreases |s|
  {
    if s != [] {
      LangCountTotal(s[..|s| - 1]);
    }
  }

  /** lang_cnt after the loop over the characters of subword: one entry per
      script and 'other', each the number of characters in it. */
  method CountLanguages(subword: string) returns (langCnt: map<Lang, nat>)
    ensures forall l: Lang :: l in langCnt && langCnt[l] == LangCount(subword, l)
  {
    langCnt := map[Zh := 0, Ja := 0, Ko := 0, Th := 0, Lo := 0, My := 0, Other := 0];
    forall l: Lang
      ensures l in langCnt && langCnt[l] == LangCount(subword[..0], l)
    {
      assert subword[..0] == [];
      match l
      case Zh => case Ja => case Ko => case Th => case Lo => case My => case Other =>
    }
    for j := 0 to |subword|
      invariant forall l: Lang :: l in langCnt && langCnt[l] == LangCount(subword[..j], l)
    {
      assert subword[..j + 1][..j] == subword[..j];
      var lang := CharLang(subword[j] as int);
      langCnt := langCnt[lang := langCnt[lang] + 1];
    }
    assert subword[..|subword|] == subword;
  }

  /** A key max(lang_cnt.items(), key=count) may return. The six scripts
      come first in lang_cnt (in set order, which the model leaves open)
      and 'other' last, and max keeps the first maximum it meets, so
      'other' is returned only when it beats every script. */
  predicate IsMaxChoice(langCnt: map<Lang, nat>, lang: Lang)
    requires forall l: Lang :: l in langCnt
  {
    (forall l: Lang :: langCnt[l] <= langCnt[lang]) &&
    (lang == Other ==> forall l: Lang :: l != Other ==> langCnt[l] < langCnt[Other])
  }

  function MaxOf(langCnt: map<Lang, nat>, a: Lang, b: Lang): (r: Lang)
    requires a in langCnt && b in langCnt
    ensures (r == a || r == b) && langCnt[a] <= langCnt[r] && langCnt[b] <= langCnt[r]
  {
    if langCnt[b] > langCnt[a] then b else a
  }

  /** A script with the highest count among the six. */
  function BestScript(langCnt: map<Lang, nat>): (r: Lang)
    requires forall l: Lang :: l in langCnt
    ensures r != Other && forall l: Lang :: l != Other ==> langCnt[l] <= langCnt[r]
  {
    MaxOf(langCnt, MaxOf(langCnt, MaxOf(langCnt, Zh, Ja), MaxOf(langCnt, Ko, Th)), MaxOf(langCnt, Lo, My))
  }

  /** max always has an answer. */
  lemma MaxChoiceExists(langCnt: map<Lang, nat>)
    requires forall l: Lang :: l in langCnt
    ensures exists lang: Lang :: IsMaxChoice(langCnt, lang)
  {
    var best := BestScript(langCnt);
    if langCnt[Other] > langCnt[best] {
      assert IsMaxChoice(langCnt, Other);
    } else {
      assert IsMaxChoice(langCnt, best);
    }
  }

  /** 'other' strictly outnumbers every script in s. */
  predicate OtherWins(s: string)
  {
    forall l: Lang :: l != Other ==> LangCount(s, l) < LangCount(s, Other)
  }

  /** Whichever maximum max picks, it is a script (so in unicode_lang)
      exactly when 'other' does not strictly outnumber every script. */
  lemma MaxChoiceIsScript(subword: string, langCnt: map<Lang, nat>, lang: Lang)
    requires forall l: Lang :: l in langCnt && langCnt[l] == LangCount(subword, l)
    requires IsMaxChoice(langCnt, lang)
    ensures lang != Other <==> !OtherWins(subword)
  {
    if lang != Other {
      assert LangCount(subword, Other) <= LangCount(subword, lang);
    }
  }

  /** The flag split_tokens_on_multi tests: that of split_tokens_on_spaces,
      or a chosen language in unicode_lang. */
  predicate MultiBoundary(t: Tokenizer, subword: string, subTokens: seq<int>)
    requires subTokens != []
  {
    SpacesBoundary(t, subword, subTokens) || !OtherWins(subword)
  }

  function MultiStarts(t: Tokenizer, u: WordSplit): (r: seq<bool>)
    requires WellFormedSplit(u)
    ensures |r| == |u.words|
  {
    seq(|u.words|, k requires 0 <= k < |u.words| => MultiBoundary(t, u.words[k], u.wordTokens[k]))
  }

  /** split_tokens_on_multi's result. */
  function MultiSplit(t: Tokenizer, tokens: seq<int>): WordSplit
  {
    var u := UnicodeSplit(t, tokens);
    Merged(u.words, u.wordTokens, MultiStarts(t, u))
  }

  /** split_tokens_on_multi keeps the same invariants as
      split_tokens_on_spaces. */
  lemma MultiSplitProperties(t: Tokenizer, tokens: seq<int>)
    ensures |MultiSplit(t, tokens).words| == |MultiSplit(t, tokens).wordTokens|
    ensures Flatten(MultiSplit(t, tokens).words) == Flatten(UnicodeSplit(t, tokens).words)
    ensures Flatten(MultiSplit(t, tokens).wordTokens) == Flatten(UnicodeSplit(t, tokens).wordTokens)
    ensures Flatten(MultiSplit(t, tokens).wordTokens) <= tokens
    ensures |MultiSplit(t, tokens).words| == WordStarts(MultiStarts(t, UnicodeSplit(t, tokens)))
    ensures forall k :: 0 <= k < |MultiSplit(t, tokens).wordTokens| ==> MultiSplit(t, tokens).wordTokens[k] != []
  {
    var u := UnicodeSplit(t, tokens);
    MergedFlatten(u.words, u.wordTokens, MultiStarts(t, u));
    MergedCount(u.words, u.wordTokens, MultiStarts(t, u));
    MergedNonEmpty(u.words, u.wordTokens, MultiStarts(t, u));
  }

  /** split_tokens_on_multi never merges more than split_tokens_on_spaces:
      every subword that starts a word there starts one here. */
  lemma MultiStartsCover(t: Tokenizer, u: WordSplit)
    requires WellFormedSplit(u)
    ensures forall k :: 0 <= k < |u.words| && SpaceStarts(t, u)[k] ==> MultiStarts(t, u)[k]
  {
  }

  /** One iteration of split_tokens_on_multi's loop over the subwords.
      pre_lang is reset to None for every subword and only reassigned when
      already set, so the elif branch of the source is unreachable. */
  method MultiIteration(t: Tokenizer, words: seq<string>, wordTokens: seq<seq<int>>,
                        subword: string, subwordTokens: seq<int>)
    returns (words': seq<string>, wordTokens': seq<seq<int>>)
    requires |words| == |wordTokens| && subwordTokens != []
    ensures WordSplit(words', wordTokens') ==
            MergeOne(WordSplit(words, wordTokens), subword, subwordTokens, MultiBoundary(t, subword, subwordTokens))
  {
    var langCnt := CountLanguages(subword);
    var preLang: Option<Lang> := None;
    var special := subwordTokens[0] >= Eot(t);
    var withSpace := |subword| > 0 && subword[0] == ' ';
    var punctuation := IsSubstring(Strip(subword), Punctuation);
    MaxChoiceExists(langCnt);
    var lang :| IsMaxChoice(langCnt, lang);
    if preLang.Some? {
      preLang := Some(lang);
    }
    MaxChoiceIsScript(subword, langCnt, lang);
    if special || withSpace || punctuation || |words| == 0 || lang != Other {
      words' := words + [subword];
      wordTokens' := wordTokens + [subwordTokens];
    } else if lang == Other && preLang.Some? && preLang != Some(Other) {
      assert false;
    } else {
      words' := words[..|words| - 1] + [words[|words| - 1] + subword];
      wordTokens' := wordTokens[..|wordTokens| - 1] + [wordTokens[|wordTokens| - 1] + subwordTokens];
    }
  }

  /** The loop of split_tokens_on_multi over the subwords. */
  method MergeOnMulti(t: Tokenizer, u: WordSplit) returns (r: WordSplit)
    requires WellFormedSplit(u)
    ensures r == Merged(u.words, u.wordTokens, MultiStarts(t, u))
  {
    ghost var starts := MultiStarts(t, u);
    var words: seq<string> := [];
    var wordTokens: seq<seq<int>> := [];
    for k := 0 to |u.words|
      invariant WordSplit(words, wordTokens) == Merged(u.words[..k], u.wordTokens[..k], starts[..k])
    {
      words, wordTokens := MultiIteration(t, words, wordTokens, u.words[k], u.wordTokens[k]);
      assert starts[k] == MultiBoundary(t, u.words[k], u.wordTokens[k]);
      MergedPrefix(u.words, u.wordTokens, starts, k);
    }
    assert u.words[..|u.words|] == u.words;
    assert u.wordTokens[..|u.words|] == u.wordTokens;
    assert starts[..|u.words|] == starts;
    r := WordSplit(words, wordTokens);
  }

  /** split_tokens_on_multi. */
  method SplitTokensOnMulti(t: Tokenizer, tokens: seq<int>) returns (r: WordSplit)
    ensures r == MultiSplit(t, tokens)
  {
    var u := SplitTokensOnUnicode(t, tokens);
    r := MergeOnMulti(t, u);
  }

  // ---------------------------------------------------------------------
  // split_to_word_tokens
  // ---------------------------------------------------------------------

  /** The language codes split at decodable boundaries rather than spaces. */
  const UnspacedLanguages: set<string> := {"zh", "ja", "th", "lo", "my", "yue"}

  /** split_to_word_tokens: unspaced languages split on unicode, a 'multi'
      info language on mixed scripts, the rest on spaces. */
  method SplitToWordTokens(t: Tokenizer, tokens: seq<int>) returns (r: WordSplit)
    ensures t.languageCode in UnspacedLanguages ==> r == UnicodeSplit(t, tokens)
    ensures t.languageCode !in UnspacedLanguages && t.infoLanguage == Some("multi") ==> r == MultiSplit(t, tokens)
    ensures t.languageCode !in UnspacedLanguages && t.infoLanguage != Some("multi") ==> r == SpacesSplit(t, tokens)
  {
    if t.languageCode in UnspacedLanguages {
      r := SplitTokensOnUnicode(t, tokens);
    } else if t.infoLanguage == Some("multi") {
      r := SplitTokensOnMulti(t, tokens);
    } else {
      r := SplitTokensOnSpaces(t, tokens);
    }
  }
}
