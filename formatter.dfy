/**
 * The content formatter of `src/services/geminiService.ts`: the tone and
 * platform tables, the provider reply handling of `callGeminiAPI`, the local
 * sentence-packing fallback `createFallbackPosts`, the `#tag` / `@name`
 * scanners and the word-packing mock splitter.
 *
 * The hosted generative-text call is not modelled: its outcome is an input,
 * a `ProviderReply`, that is either a failure, a reply whose text parsed into
 * posts, or a reply whose text did not parse.
 */
module Formatter {
  import opened Wrappers
  import opened JsText

  datatype GeminiPost = GeminiPost(content: string, characterCount: int, hashtags: seq<string>, mentions: seq<string>)

  datatype Metadata = Metadata(totalPosts: int, platform: string, tones: seq<string>, useEmojis: bool, totalCharacters: int)

  datatype GeminiResponse = GeminiResponse(posts: seq<GeminiPost>, success: bool, error: Option<string>, metadata: Metadata)

  datatype RequestOptions = RequestOptions(
    prompt: string, tones: seq<string>, platform: string, useEmojis: bool,
    maxPosts: Option<int>, customInstructions: Option<string>)

  /** A post object as the provider's JSON gave it: every field may be missing. */
  datatype RawPost = RawPost(content: Option<string>, characterCount: Option<int>,
                             hashtags: Option<seq<string>>, mentions: Option<seq<string>>)

  /** The provider's own `metadata` object, whose fields override the computed ones. */
  datatype ProviderMetadata = ProviderMetadata(
    totalPosts: Option<int>, platform: Option<string>, tones: Option<seq<string>>,
    useEmojis: Option<bool>, totalCharacters: Option<int>)

  /** Whether the reply text parsed into an object with a `posts` array. */
  datatype ParseOutcome = Parsed(raw: seq<RawPost>, meta: ProviderMetadata) | Unparsable

  /** What the network call produced: an error (thrown before any text was read), or reply text. */
  datatype ProviderReply = CallFailed(message: string) | Replied(text: string, parse: ParseOutcome)

  // ---------------------------------------------------------------------------------------------
  // Tone and platform tables

  const ToneInstructions: map<string, string> := map[
    "funny" := "Use humor, wit, clever wordplay, and entertaining content that makes people smile or laugh",
    "creative" := "Be imaginative, unique, artistic, and use creative storytelling with fresh perspectives",
    "direct" := "Be clear, concise, straightforward, and get straight to the point without fluff",
    "formal" := "Use professional, business-appropriate language with proper grammar and respectful tone",
    "neutral" := "Maintain a balanced, informative approach that's neither too casual nor too formal",
    "inspirational" := "Motivate and uplift with positive messaging and encouraging language",
    "conversational" := "Write as if talking to a friend - casual, relatable, and approachable",
    "educational" := "Focus on teaching, explaining, and providing valuable information clearly",
    "emotional" := "Connect deeply with feelings and create emotional resonance with the audience",
    "bold" := "Be confident, assertive, and take strong positions with powerful language"
  ]

  /**
   * The instruction for one tone; an unknown tone gets the neutral one. Every result is one of
   * the table's instructions, and the neutral one comes out exactly for "neutral" and for
   * tones the table does not know.
   */
  function ToneInstruction(tone: string): (r: string)
    ensures r in ToneInstructions.Values
    ensures r == ToneInstructions["neutral"] <==> tone == "neutral" || tone !in ToneInstructions
    ensures tone in ToneInstructions ==> r == ToneInstructions[tone]
  {
    if tone in ToneInstructions then ToneInstructions[tone] else ToneInstructions["neutral"]
  }

  const ToneSeparator := ". Additionally, "

  /** The tone requirement sent to the provider: one instruction per tone, in the order given. */
  function CombinedTones(tones: seq<string>): string
  {
    Join(seq(|tones|, i requires 0 <= i < |tones| => ToneInstruction(tones[i])), ToneSeparator)
  }

  /** Adding a tone at the end adds its instruction at the end. */
  lemma CombinedTonesAppend(tones: seq<string>, tone: string)
    requires tones != []
    ensures CombinedTones(tones + [tone]) == CombinedTones(tones) + ToneSeparator + ToneInstruction(tone)
  {
    var a := seq(|tones|, i requires 0 <= i < |tones| => ToneInstruction(tones[i]));
    var t := tones + [tone];
    assert seq(|t|, i requires 0 <= i < |t| => ToneInstruction(t[i])) == a + [ToneInstruction(tone)];
    JoinConcat(a, [ToneInstruction(tone)], ToneSeparator);
  }

  datatype PlatformSpec = PlatformSpec(charLimit: int, features: string, bestPractices: string)

  const PlatformSpecs: map<string, PlatformSpec> := map[
    "twitter" := PlatformSpec(280,
      "Use threads for longer content, trending hashtags, @mentions, and Twitter-specific formatting",
      "Keep tweets punchy, use line breaks for readability, encourage engagement"),
    "linkedin" := PlatformSpec(3000,
      "Professional networking focus, industry insights, thought leadership, professional hashtags",
      "Start with a hook, use white space, end with a question or call-to-action"),
    "threads" := PlatformSpec(500,
      "Instagram's text-based platform, casual but engaging, visual storytelling",
      "Use thread format for longer stories, include relevant hashtags, encourage discussion"),
    "instagram" := PlatformSpec(2200,
      "Visual-first platform, lifestyle focus, story-driven captions, hashtag strategy",
      "Start strong, tell a story, use strategic hashtags, include call-to-action"),
    "facebook" := PlatformSpec(63206,
      "Community-focused, longer form content, link sharing, event promotion",
      "Use engaging openings, break up long text, encourage comments and shares"),
    "tiktok" := PlatformSpec(300,
      "Short, catchy descriptions for videos, trending sounds, challenges",
      "Use trending hashtags, reference current events, create curiosity")
  ]

  /** The platform's specification; an unknown platform gets twitter's. */
  function PlatformInfo(platform: string): (r: PlatformSpec)
    ensures platform in PlatformSpecs ==> r == PlatformSpecs[platform]
    ensures platform !in PlatformSpecs ==> r == PlatformSpecs["twitter"] && r.charLimit == 280
    ensures r.charLimit >= 280
  {
    if platform in PlatformSpecs then PlatformSpecs[platform] else PlatformSpecs["twitter"]
  }

  // ---------------------------------------------------------------------------------------------
  // API key selection. The two key literals of the source are not reproduced here; all that
  // matters is that the built-in default key is not the key that selects the mock reply.

  const DefaultKey := "default-key"
  const MockKey := "mock-key"

  /** `api || default`: the configured key, or the built-in default when it is missing or empty. */
  function ApiKey(configured: Option<string>): string
  {
    OrString(configured, DefaultKey)
  }

  /** The mock branch runs only when the configured key is literally the mock key. */
  predicate UsesMock(key: string) { key == MockKey }

  lemma MockOnlyForMockKey(configured: Option<string>)
    ensures UsesMock(ApiKey(configured)) <==> configured == Some(MockKey)
  {
  }

  // ---------------------------------------------------------------------------------------------
  // Sentence splitting: `content.split(/[.!?]+/)`

  predicate IsTerminator(c: char) { c == '.' || c == '!' || c == '?' }

  /** `s.split(/[.!?]+/)`: every maximal run of terminators separates two fragments. */
  function SplitSentences(s: string): (r: seq<string>)
    ensures |r| >= 1
    ensures forall i, j :: 0 <= i < |r| && 0 <= j < |r[i]| ==> !IsTerminator(r[i][j])
  {
    if s == [] then [""]
    else
      var rest := SplitSentences(s[1..]);
      if IsTerminator(s[0]) then
        if |s| > 1 && IsTerminator(s[1]) then rest else [""] + rest
      else [[s[0]] + rest[0]] + rest[1..]
  }

  /** Text without any terminator is a single fragment. */
  lemma {:induction false} SplitWithoutTerminator(s: string)
    requires forall i :: 0 <= i < |s| ==> !IsTerminator(s[i])
    ensures SplitSentences(s) == [s]
  {
    if s != [] {
      SplitWithoutTerminator(s[1..]);
      assert [s[0]] + s[1..] == s;
    }
  }

  /** `.filter(s => s.trim())`. */
  function NonBlank(xs: seq<string>): (r: seq<string>)
    ensures forall i :: 0 <= i < |r| ==> Trim(r[i]) != ""
  {
    if xs == [] then []
    else (if Trim(xs[0]) != "" then [xs[0]] else []) + NonBlank(xs[1..])
  }

  /** One fragment as the fallback writes it: trimmed and ended with ".", or nothing when blank. */
  function Dot(x: string): seq<string>
  {
    if Trim(x) != "" then [Ended(Trim(x))] else []
  }

  /** The sentences as the fallback writes them, in order. */
  function Dotted(xs: seq<string>): seq<string>
  {
    if xs == [] then [] else Dot(xs[0]) + Dotted(xs[1..])
  }

  lemma {:induction false} DottedAppend(a: seq<string>, b: seq<string>)
    ensures Dotted(a + b) == Dotted(a) + Dotted(b)
  {
    if a == [] {
      assert a + b == b;
    } else {
      assert (a + b)[0] == a[0];
      assert (a + b)[1..] == a[1..] + b;
      DottedAppend(a[1..], b);
      calc {
        Dotted(a + b);
        Dot(a[0]) + Dotted(a[1..] + b);
        Dot(a[0]) + (Dotted(a[1..]) + Dotted(b));
        (Dot(a[0]) + Dotted(a[1..])) + Dotted(b);
      }
    }
  }

  lemma {:induction false} DottedNonBlank(xs: seq<string>)
    ensures Dotted(NonBlank(xs)) == Dotted(xs)
  {
    if xs != [] {
      DottedNonBlank(xs[1..]);
      var h := if Trim(xs[0]) != "" then [xs[0]] else [];
      DottedAppend(h, NonBlank(xs[1..]));
      if h != [] {
        assert Dotted(h) == Dot(xs[0]) + Dotted([]);
      }
    }
  }

  /** The sentences of a text, trimmed and ended with ".", in order. */
  function Sentences(content: string): seq<string>
  {
    Dotted(SplitSentences(content))
  }

  // ---------------------------------------------------------------------------------------------
  // Greedy packing: the specification of the loop in `createFallbackPosts`

  function Prep(current: string): seq<string> { if current == "" then [] else [current] }

  /** A sentence closed with "." (`trimmedSentence + "."`). */
  function Ended(t: string): string { t + "." }

  /** `potentialPost`: the current post extended by one sentence. */
  function Merge(current: string, t: string): string
  {
    if current != "" then current + " " + Ended(t) else Ended(t)
  }

  /**
   * The posts (as raw `currentPost` strings) the loop emits from state `current` on the
   * remaining fragments `rest`, with `budget` = `charLimit - 50`.
   */
  function PackFrom(current: string, rest: seq<string>, budget: int): seq<string>
    decreases |rest|
  {
    if rest == [] then Prep(current)
    else
      var t := Trim(rest[0]);
      if t == "" then PackFrom(current, rest[1..], budget)
      else
        if |Merge(current, t)| <= budget then PackFrom(Merge(current, t), rest[1..], budget)
        else Prep(current) + PackFrom(Ended(t), rest[1..], budget)
  }

  /** One emitted post: content and count from the trimmed text, tags from the untrimmed one. */
  function MakePost(raw: string): GeminiPost
  {
    GeminiPost(Trim(raw), |Trim(raw)|, Hashtags(raw), Mentions(raw))
  }

  function ToPosts(raws: seq<string>): (r: seq<GeminiPost>)
    ensures |r| == |raws| && forall i :: 0 <= i < |raws| ==> r[i] == MakePost(raws[i])
  {
    if raws == [] then [] else [MakePost(raws[0])] + ToPosts(raws[1..])
  }

  /** The single post returned when no sentence survives: a prefix of the text and "...". */
  function TruncatedPost(content: string, charLimit: int): GeminiPost
  {
    GeminiPost(Substring(content, 0, charLimit - 10) + "...", Min(|content|, charLimit - 10) + 3, [], [])
  }

  /** What `createFallbackPosts(content, _, charLimit, _)` returns. */
  function FallbackPosts(content: string, charLimit: int): seq<GeminiPost>
  {
    var posts := ToPosts(PackFrom("", NonBlank(SplitSentences(content)), charLimit - 50));
    if |posts| > 0 then posts else [TruncatedPost(content, charLimit)]
  }

  function Contents(posts: seq<GeminiPost>): (r: seq<string>)
    ensures |r| == |posts| && forall i :: 0 <= i < |posts| ==> r[i] == posts[i].content
  {
    if posts == [] then [] else [posts[0].content] + Contents(posts[1..])
  }

  lemma ToPostsAppend(raws: seq<string>, x: string)
    ensures ToPosts(raws + [x]) == ToPosts(raws) + [MakePost(x)]
  {
    var l, r := ToPosts(raws + [x]), ToPosts(raws) + [MakePost(x)];
    assert |l| == |r|;
    forall i | 0 <= i < |l|
      ensures l[i] == r[i]
    {
      if i < |raws| {
        assert (raws + [x])[i] == raws[i];
      } else {
        assert (raws + [x])[i] == x;
      }
    }
  }

  lemma FlushStep(emitted: seq<string>, c: string, tail: seq<string>, whole: seq<string>)
    requires emitted + (Prep(c) + tail) == whole
    ensures (if c != "" then emitted + [c] else emitted) + tail == whole
  {
    if c == "" {
      assert Prep(c) + tail == tail;
    } else {
      assert (emitted + [c]) + tail == emitted + ([c] + tail);
    }
  }

  lemma FallbackUnfold(content: string, charLimit: int)
    ensures var packed := ToPosts(PackFrom("", NonBlank(SplitSentences(content)), charLimit - 50));
            FallbackPosts(content, charLimit) == if |packed| > 0 then packed else [TruncatedPost(content, charLimit)]
  {
  }

  /** One iteration of the packing loop. */
  lemma PackStep(c: string, rest: seq<string>, b: int)
    requires rest != []
    ensures var t := Trim(rest[0]);
            && (t == "" ==> PackFrom(c, rest, b) == PackFrom(c, rest[1..], b))
            && (t != "" && |Merge(c, t)| <= b ==> PackFrom(c, rest, b) == PackFrom(Merge(c, t), rest[1..], b))
            && (t != "" && |Merge(c, t)| > b ==> PackFrom(c, rest, b) == Prep(c) + PackFrom(Ended(t), rest[1..], b))
  {
  }

  /** How one iteration of the loop keeps "emitted posts, then the posts of the rest" equal to the whole. */
  lemma PackAdvance(emitted: seq<string>, c: string, sentences: seq<string>, i: int, b: int, whole: seq<string>)
    requires 0 <= i < |sentences|
    requires emitted + PackFrom(c, sentences[i..], b) == whole
    ensures var t := Trim(sentences[i]);
            && (t == "" ==> emitted + PackFrom(c, sentences[i + 1..], b) == whole)
            && (t != "" && |Merge(c, t)| <= b ==> emitted + PackFrom(Merge(c, t), sentences[i + 1..], b) == whole)
            && (t != "" && |Merge(c, t)| > b ==>
                  (if c != "" then emitted + [c] else emitted) + PackFrom(Ended(t), sentences[i + 1..], b) == whole)
  {
    var rest := sentences[i..];
    assert rest[0] == sentences[i] && rest[1..] == sentences[i + 1..];
    PackStep(c, rest, b);
    var t := Trim(sentences[i]);
    if t != "" && |Merge(c, t)| > b {
      FlushStep(emitted, c, PackFrom(Ended(t), sentences[i + 1..], b), whole);
    }
  }

  /** When the loop has consumed every fragment, the pending post is the last one. */
  lemma PackDone(emitted: seq<string>, c: string, sentences: seq<string>, b: int, whole: seq<string>)
    requires emitted + PackFrom(c, sentences[|sentences|..], b) == whole
    ensures (if c != "" then emitted + [c] else emitted) == whole
  {
    assert sentences[|sentences|..] == [];
    if c == "" {
      assert emitted + [] == emitted;
    }
  }

  /** The sentence-packing fallback, as the source writes it: a loop over the fragments. */
  method CreateFallbackPosts(content: string, platform: string, charLimit: int, useEmojis: bool)
    returns (posts: seq<GeminiPost>)
    ensures posts == FallbackPosts(content, charLimit)
  {
    var sentences := NonBlank(SplitSentences(content));
    var budget := charLimit - 50;
    ghost var whole := PackFrom("", sentences, budget);
    posts := [];
    ghost var emitted: seq<string> := [];
    var currentPost := "";
    var i := 0;
    while i < |sentences|
      invariant 0 <= i <= |sentences|
      invariant posts == ToPosts(emitted)
      invariant emitted + PackFrom(currentPost, sentences[i..], budget) == whole
    {
      PackAdvance(emitted, currentPost, sentences, i, budget, whole);
      var trimmedSentence := Trim(sentences[i]);
      if trimmedSentence != "" {
        var potentialPost := Merge(currentPost, trimmedSentence);
        if |potentialPost| <= budget {
          currentPost := potentialPost;
        } else {
          if currentPost != "" {
            ToPostsAppend(emitted, currentPost);
            posts := posts + [MakePost(currentPost)];
            emitted := emitted + [currentPost];
          }
          currentPost := Ended(trimmedSentence);
        }
      }
      i := i + 1;
    }
    PackDone(emitted, currentPost, sentences, budget, whole);
    if currentPost != "" {
      ToPostsAppend(emitted, currentPost);
      posts := posts + [MakePost(currentPost)];
      emitted := emitted + [currentPost];
    }
    assert posts == ToPosts(whole);
    if |posts| == 0 {
      posts := [TruncatedPost(content, charLimit)];
    }
    FallbackUnfold(content, charLimit);
  }

  // ---------------------------------------------------------------------------------------------
  // Properties of the packing

  /** One step of the packing loop on a non-blank fragment, as the sentence it contributes. */
  lemma DottedHead(rest: seq<string>)
    requires rest != []
    ensures Trim(rest[0]) != "" ==> Dotted(rest) == [Ended(Trim(rest[0]))] + Dotted(rest[1..])
    ensures Trim(rest[0]) == "" ==> Dotted(rest) == Dotted(rest[1..])
  {
  }

  /** Every emitted post is non-empty and has no whitespace at its ends. */
  lemma {:induction false} PackTrimmed(c: string, rest: seq<string>, b: int)
    requires IsTrimmed(c)
    ensures forall x :: x in PackFrom(c, rest, b) ==> x != "" && IsTrimmed(x)
    decreases |rest|
  {
    if rest != [] {
      var t := Trim(rest[0]);
      if t == "" {
        assert PackFrom(c, rest, b) == PackFrom(c, rest[1..], b);
        PackTrimmed(c, rest[1..], b);
      } else {
        var p := Merge(c, t);
        MergeTrimmed(c, t);
        if |p| <= b {
          assert PackFrom(c, rest, b) == PackFrom(p, rest[1..], b);
          PackTrimmed(p, rest[1..], b);
        } else {
          var tail := PackFrom(Ended(t), rest[1..], b);
          assert PackFrom(c, rest, b) == Prep(c) + tail;
          PackTrimmed(Ended(t), rest[1..], b);
          forall x | x in Prep(c) + tail
            ensures x != "" && IsTrimmed(x)
          {
            if x !in tail {
              assert x == c;
            }
          }
        }
      }
    }
  }

  lemma MergeTrimmed(c: string, t: string)
    requires IsTrimmed(c) && t != "" && IsTrimmed(t)
    ensures Merge(c, t) != "" && IsTrimmed(Merge(c, t))
    ensures Ended(t) != "" && IsTrimmed(Ended(t))
  {
    assert Ended(t)[0] == t[0];
    if c != "" {
      assert Merge(c, t)[0] == c[0];
    }
  }

  /** The loop emits nothing exactly when it starts empty and no fragment is non-blank. */
  lemma {:induction false} PackEmpty(c: string, rest: seq<string>, b: int)
    ensures PackFrom(c, rest, b) == [] <==> c == "" && Dotted(rest) == []
    decreases |rest|
  {
    if rest != [] {
      DottedHead(rest);
      var t := Trim(rest[0]);
      if t == "" {
        PackEmpty(c, rest[1..], b);
      } else {
        var p := Merge(c, t);
        PackEmpty(p, rest[1..], b);
        PackEmpty(Ended(t), rest[1..], b);
      }
    }
  }

  lemma JoinMerge(c: string, t: string, ds: seq<string>)
    ensures Join(Prep(Merge(c, t)) + ds, " ") == Join(Prep(c) + ([Ended(t)] + ds), " ")
  {
    assert Prep(Merge(c, t)) == [Merge(c, t)];
    JoinCons(Merge(c, t), ds, " ");
    JoinCons(Ended(t), ds, " ");
    if c != "" {
      JoinCons(c, [Ended(t)] + ds, " ");
      assert Prep(c) + ([Ended(t)] + ds) == [c] + ([Ended(t)] + ds);
    } else {
      assert Prep(c) + ([Ended(t)] + ds) == [Ended(t)] + ds;
    }
  }

  lemma JoinFlush(c: string, x: seq<string>, y: seq<string>)
    requires x != [] && y != [] && Join(x, " ") == Join(y, " ")
    ensures Join(Prep(c) + x, " ") == Join(Prep(c) + y, " ")
  {
    if c != "" {
      JoinCons(c, x, " ");
      JoinCons(c, y, " ");
    } else {
      assert Prep(c) + x == x && Prep(c) + y == y;
    }
  }

  /** Nothing is lost and the order is kept: the posts, joined, are the sentences, joined. */
  lemma {:induction false} PackJoin(c: string, rest: seq<string>, b: int)
    ensures Join(PackFrom(c, rest, b), " ") == Join(Prep(c) + Dotted(rest), " ")
    decreases |rest|
  {
    if rest == [] {
      assert Prep(c) + Dotted(rest) == Prep(c);
    } else {
      DottedHead(rest);
      var t := Trim(rest[0]);
      if t == "" {
        PackJoin(c, rest[1..], b);
      } else if |Merge(c, t)| <= b {
        PackJoin(Merge(c, t), rest[1..], b);
        JoinMerge(c, t, Dotted(rest[1..]));
      } else {
        PackJoin(Ended(t), rest[1..], b);
        PackEmpty(Ended(t), rest[1..], b);
        JoinFlush(c, PackFrom(Ended(t), rest[1..], b), [Ended(t)] + Dotted(rest[1..]));
      }
    }
  }

  /** A post longer than the budget is the starting text or one sentence on its own. */
  lemma {:induction false} PackBound(c: string, rest: seq<string>, b: int)
    ensures forall x :: x in PackFrom(c, rest, b) ==> |x| <= b || x in Dotted(rest) || x == c
    decreases |rest|
  {
    if rest != [] {
      DottedHead(rest);
      var t := Trim(rest[0]);
      if t == "" {
        PackBound(c, rest[1..], b);
      } else {
        var p := Merge(c, t);
        if |p| <= b {
          PackBound(p, rest[1..], b);
        } else {
          PackBound(Ended(t), rest[1..], b);
        }
      }
    }
  }

  /** Starting from a text already over the budget, that text is emitted. */
  lemma {:induction false} PackEmitsLongStart(c: string, rest: seq<string>, b: int)
    requires c != "" && |c| > b
    ensures c in PackFrom(c, rest, b)
    decreases |rest|
  {
    if rest != [] && Trim(rest[0]) == "" {
      PackEmitsLongStart(c, rest[1..], b);
    }
  }

  lemma MergeLength(c: string, t: string)
    ensures |Merge(c, t)| >= |Ended(t)| && |Merge(c, t)| >= |c|
  {
  }

  /** A sentence longer than the budget is emitted whole, as its own post. */
  lemma {:induction false} PackKeepsLong(c: string, rest: seq<string>, b: int)
    ensures forall d :: d in Dotted(rest) && |d| > b ==> d in PackFrom(c, rest, b)
    decreases |rest|
  {
    if rest != [] {
      DottedHead(rest);
      var t := Trim(rest[0]);
      if t == "" {
        PackKeepsLong(c, rest[1..], b);
      } else if |Merge(c, t)| <= b {
        PackKeepsLong(Merge(c, t), rest[1..], b);
        MergeLength(c, t);
      } else {
        var tail := PackFrom(Ended(t), rest[1..], b);
        PackKeepsLong(Ended(t), rest[1..], b);
        if |Ended(t)| > b {
          PackEmitsLongStart(Ended(t), rest[1..], b);
        }
        assert PackFrom(c, rest, b) == Prep(c) + tail;
      }
    }
  }

  lemma TrimmedPosts(raws: seq<string>)
    requires forall x :: x in raws ==> IsTrimmed(x)
    ensures Contents(ToPosts(raws)) == raws
  {
    var cs := Contents(ToPosts(raws));
    assert forall i :: 0 <= i < |raws| ==> cs[i] == Trim(raws[i]) == raws[i];
  }

  /** The packed contents, when at least one sentence survives. */
  lemma FallbackContents(content: string, charLimit: int)
    requires Sentences(content) != []
    ensures var packed := PackFrom("", NonBlank(SplitSentences(content)), charLimit - 50);
            && packed != []
            && FallbackPosts(content, charLimit) == ToPosts(packed)
            && Contents(FallbackPosts(content, charLimit)) == packed
  {
    var sentences := NonBlank(SplitSentences(content));
    DottedNonBlank(SplitSentences(content));
    PackEmpty("", sentences, charLimit - 50);
    PackTrimmed("", sentences, charLimit - 50);
    TrimmedPosts(PackFrom("", sentences, charLimit - 50));
  }

  // ---------------------------------------------------------------------------------------------
  // Properties of createFallbackPosts

  /** The fallback never returns an empty list. */
  lemma FallbackNonEmpty(content: string, charLimit: int)
    ensures |FallbackPosts(content, charLimit)| >= 1
    ensures Sentences(content) == [] ==> FallbackPosts(content, charLimit) == [TruncatedPost(content, charLimit)]
  {
    if Sentences(content) == [] {
      DottedNonBlank(SplitSentences(content));
      PackEmpty("", NonBlank(SplitSentences(content)), charLimit - 50);
    }
  }

  /** Every post's count is its content's length (on the truncation path once the limit is at least 10). */
  lemma FallbackCounts(content: string, charLimit: int)
    requires Sentences(content) != [] || charLimit >= 10
    ensures forall p :: p in FallbackPosts(content, charLimit) ==> p.characterCount == |p.content|
  {
    if Sentences(content) != [] {
      PackedCounts(content, charLimit);
    } else {
      FallbackNonEmpty(content, charLimit);
      SingleTruncatedCounts(FallbackPosts(content, charLimit), content, charLimit);
    }
  }

  lemma PackedCounts(content: string, charLimit: int)
    requires Sentences(content) != []
    ensures forall p :: p in FallbackPosts(content, charLimit) ==> p.characterCount == |p.content|
  {
    var raws := PackFrom("", NonBlank(SplitSentences(content)), charLimit - 50);
    FallbackContents(content, charLimit);
    ToPostsCounts(raws);
  }

  lemma SingleTruncatedCounts(posts: seq<GeminiPost>, content: string, charLimit: int)
    requires posts == [TruncatedPost(content, charLimit)] && charLimit >= 10
    ensures forall p :: p in posts ==> p.characterCount == |p.content|
  {
    TruncatedCount(content, charLimit);
  }

  lemma ToPostsCounts(raws: seq<string>)
    ensures forall p :: p in ToPosts(raws) ==> p.characterCount == |p.content|
  {
    var posts := ToPosts(raws);
    forall p | p in posts
      ensures p.characterCount == |p.content|
    {
      var i :| 0 <= i < |posts| && posts[i] == p;
    }
  }

  lemma TruncatedCount(content: string, charLimit: int)
    requires charLimit >= 10
    ensures TruncatedPost(content, charLimit).characterCount == |TruncatedPost(content, charLimit).content|
  {
    assert |Substring(content, 0, charLimit - 10)| == Min(|content|, charLimit - 10);
  }

  /** The truncation post: the first `charLimit - 10` characters followed by "...". */
  lemma TruncatedShape(content: string, charLimit: int)
    requires charLimit >= 10
    ensures var p := TruncatedPost(content, charLimit);
            && p.content == content[..Min(|content|, charLimit - 10)] + "..."
            && |p.content| <= charLimit - 7
            && p.hashtags == [] && p.mentions == []
  {
  }

  /** Joining the posts with " " gives the sentences, each ended with ".", joined with " ". */
  lemma FallbackJoin(content: string, charLimit: int)
    requires Sentences(content) != []
    ensures Join(Contents(FallbackPosts(content, charLimit)), " ") == Join(Sentences(content), " ")
  {
    var sentences := NonBlank(SplitSentences(content));
    var packed := PackFrom("", sentences, charLimit - 50);
    FallbackContents(content, charLimit);
    assert Contents(FallbackPosts(content, charLimit)) == packed;
    PackJoin("", sentences, charLimit - 50);
    assert Prep("") + Dotted(sentences) == Dotted(sentences);
    DottedNonBlank(SplitSentences(content));
  }

  /** The i-th post, when at least one sentence survives: the i-th packed text, trimmed already. */
  lemma FallbackPostAt(content: string, charLimit: int, i: int)
    requires Sentences(content) != []
    requires 0 <= i < |FallbackPosts(content, charLimit)|
    ensures var packed := PackFrom("", NonBlank(SplitSentences(content)), charLimit - 50);
            && i < |packed|
            && FallbackPosts(content, charLimit)[i] == MakePost(packed[i])
            && packed[i] != "" && IsTrimmed(packed[i]) && packed[i] in packed
            && FallbackPosts(content, charLimit)[i].content == packed[i]
  {
    var packed := PackFrom("", NonBlank(SplitSentences(content)), charLimit - 50);
    FallbackContents(content, charLimit);
    PackTrimmed("", NonBlank(SplitSentences(content)), charLimit - 50);
    assert packed[i] in packed;
  }

  /** A post over `charLimit - 50` characters is a single sentence of the text. */
  lemma FallbackBound(content: string, charLimit: int)
    requires Sentences(content) != []
    ensures forall p :: p in FallbackPosts(content, charLimit) ==>
              |p.content| <= charLimit - 50 || p.content in Sentences(content)
  {
    var posts := FallbackPosts(content, charLimit);
    var sentences := NonBlank(SplitSentences(content));
    PackBound("", sentences, charLimit - 50);
    DottedNonBlank(SplitSentences(content));
    forall p | p in posts
      ensures |p.content| <= charLimit - 50 || p.content in Sentences(content)
    {
      var i :| 0 <= i < |posts| && posts[i] == p;
      FallbackPostAt(content, charLimit, i);
    }
  }

  /** A sentence over `charLimit - 50` characters is emitted whole, as one post. */
  lemma FallbackKeepsLong(content: string, charLimit: int)
    ensures forall d :: d in Sentences(content) && |d| > charLimit - 50 ==>
              d in Contents(FallbackPosts(content, charLimit))
  {
    if Sentences(content) != [] {
      var sentences := NonBlank(SplitSentences(content));
      FallbackContents(content, charLimit);
      PackKeepsLong("", sentences, charLimit - 50);
      DottedNonBlank(SplitSentences(content));
    }
  }

  /** Each post's tags are the tags of its own content. */
  lemma FallbackTags(content: string, charLimit: int)
    requires Sentences(content) != []
    ensures forall p :: p in FallbackPosts(content, charLimit) ==>
              p.hashtags == Hashtags(p.content) && p.mentions == Mentions(p.content)
  {
    var posts := FallbackPosts(content, charLimit);
    forall p | p in posts
      ensures p.hashtags == Hashtags(p.content) && p.mentions == Mentions(p.content)
    {
      var i :| 0 <= i < |posts| && posts[i] == p;
      FallbackPostAt(content, charLimit, i);
    }
  }

  /**
   * A text with no ".", "!" or "?" becomes exactly one post, the trimmed text and ".",
   * however long it is: the fallback applies neither the limit nor a truncation to it.
   */
  lemma FallbackWithoutTerminator(content: string, charLimit: int)
    requires forall i :: 0 <= i < |content| ==> !IsTerminator(content[i])
    requires Trim(content) != ""
    ensures Contents(FallbackPosts(content, charLimit)) == [Trim(content) + "."]
    ensures FallbackPosts(content, charLimit) == [MakePost(Trim(content) + ".")]
  {
    SplitWithoutTerminator(content);
    assert NonBlank([content]) == [content];
    assert Dotted([content]) == [Ended(Trim(content))];
    FallbackContents(content, charLimit);
  }

  // ---------------------------------------------------------------------------------------------
  // `#\w+` and `@\w+` scanners

  /** The length of the run of word characters at the start of `t`. */
  function WordRun(t: string): (n: nat)
    ensures n <= |t|
    ensures forall i :: 0 <= i < n ==> IsWordChar(t[i])
    ensures n == |t| || !IsWordChar(t[n])
  {
    if t != [] && IsWordChar(t[0]) then 1 + WordRun(t[1..]) else 0
  }

  /** A match of `<sigil>\w+`. */
  predicate IsToken(m: string, sigil: char) {
    |m| >= 2 && m[0] == sigil && forall j :: 1 <= j < |m| ==> IsWordChar(m[j])
  }

  /** `s.match(/<sigil>\w+/g)` (or `[]` when nothing matches): the matches, left to right. */
  function Matches(s: string, sigil: char): (r: seq<string>)
    ensures forall i :: 0 <= i < |r| ==> IsToken(r[i], sigil)
    decreases |s|
  {
    if |s| == 0 then []
    else if s[0] == sigil && |s| > 1 && IsWordChar(s[1]) then
      var n := WordRun(s[1..]);
      [s[..1 + n]] + Matches(s[1 + n..], sigil)
    else Matches(s[1..], sigil)
  }

  /** `extractHashtags`: the `#\w+` matches without their "#". */
  function Hashtags(s: string): seq<string>
  {
    var ms := Matches(s, '#');
    seq(|ms|, i requires 0 <= i < |ms| => ms[i][1..])
  }

  /** Each hashtag is a match with its "#" removed: a non-empty run of word characters. */
  lemma HashtagsAreMatches(s: string)
    ensures var ms, r := Matches(s, '#'), Hashtags(s);
            && |r| == |ms|
            && (forall i :: 0 <= i < |r| ==> ['#'] + r[i] == ms[i])
            && (forall i :: 0 <= i < |r| ==> |r[i]| >= 1 && forall j :: 0 <= j < |r[i]| ==> IsWordChar(r[i][j]))
  {
    var ms, r := Matches(s, '#'), Hashtags(s);
    forall i | 0 <= i < |r| ensures ['#'] + r[i] == ms[i] {
      assert ms[i] == [ms[i][0]] + ms[i][1..];
    }
  }

  /** `extractMentions`: the `@\w+` matches, "@" kept. */
  function Mentions(s: string): (r: seq<string>)
    ensures forall i :: 0 <= i < |r| ==> IsToken(r[i], '@')
  {
    Matches(s, '@')
  }

  lemma {:induction false} WordRunConcat(x: string, y: string)
    requires x != [] && !IsWordChar(x[|x| - 1])
    ensures WordRun(x + y) == WordRun(x)
  {
    if IsWordChar(x[0]) {
      assert (x + y)[1..] == x[1..] + y;
      WordRunConcat(x[1..], y);
    }
  }

  /**
   * Matches come out in text order: splitting the text after a character that can neither
   * continue nor start a match splits the matches the same way.
   */
  lemma {:induction false} MatchesConcat(a: string, b: string, sigil: char)
    requires a == [] || (!IsWordChar(a[|a| - 1]) && a[|a| - 1] != sigil)
    ensures Matches(a + b, sigil) == Matches(a, sigil) + Matches(b, sigil)
    decreases |a|
  {
    if a == [] {
      assert a + b == b;
    } else {
      var pre, rest := MatchesStep(a, b, sigil);
      MatchesConcat(rest, b, sigil);
      AppendAssoc(pre, Matches(rest, sigil), Matches(b, sigil));
    }
  }

  lemma AppendAssoc(x: seq<string>, y: seq<string>, z: seq<string>)
    ensures x + (y + z) == (x + y) + z
  {
  }

  /** One step of the scan over `a + b` that stays inside `a`. */
  lemma MatchesStep(a: string, b: string, sigil: char) returns (pre: seq<string>, rest: string)
    requires a != [] && !IsWordChar(a[|a| - 1]) && a[|a| - 1] != sigil
    ensures |rest| < |a| && (rest == [] || (!IsWordChar(rest[|rest| - 1]) && rest[|rest| - 1] != sigil))
    ensures Matches(a + b, sigil) == pre + Matches(rest + b, sigil)
    ensures Matches(a, sigil) == pre + Matches(rest, sigil)
  {
    if a[0] == sigil && IsWordChar(a[1]) {
      var n := MatchesTokenStep(a, b, sigil);
      pre, rest := [a[..1 + n]], a[1 + n..];
      assert rest[|rest| - 1] == a[|a| - 1];
    } else {
      MatchesSkipStep(a, b, sigil);
      pre, rest := [], a[1..];
      assert rest == [] || rest[|rest| - 1] == a[|a| - 1];
    }
  }

  /** One token step of `Matches` on `a + b` when the token ends inside `a`. */
  lemma MatchesTokenStep(a: string, b: string, sigil: char) returns (n: nat)
    requires |a| >= 2 && !IsWordChar(a[|a| - 1]) && a[0] == sigil && IsWordChar(a[1])
    ensures n < |a| - 1
    ensures Matches(a + b, sigil) == [a[..1 + n]] + Matches(a[1 + n..] + b, sigil)
    ensures Matches(a, sigil) == [a[..1 + n]] + Matches(a[1 + n..], sigil)
  {
    var s := a + b;
    assert s[0] == a[0] && s[1] == a[1] && s[1..] == a[1..] + b;
    WordRunConcat(a[1..], b);
    n := WordRun(a[1..]);
    MatchesToken(a, sigil);
    MatchesToken(s, sigil);
    assert s[..1 + n] == a[..1 + n];
    assert s[1 + n..] == a[1 + n..] + b;
  }

  /** The scan at a token start: the token, then the scan of what follows it. */
  lemma MatchesToken(s: string, sigil: char)
    requires |s| >= 2 && s[0] == sigil && IsWordChar(s[1])
    ensures Matches(s, sigil) == [s[..1 + WordRun(s[1..])]] + Matches(s[1 + WordRun(s[1..])..], sigil)
  {
  }

  /** One skip step of `Matches` on `a + b` when `a` does not start a token. */
  lemma MatchesSkipStep(a: string, b: string, sigil: char)
    requires a != [] && a[|a| - 1] != sigil
    requires !(a[0] == sigil && IsWordChar(a[1]))
    ensures Matches(a + b, sigil) == Matches(a[1..] + b, sigil)
    ensures Matches(a, sigil) == Matches(a[1..], sigil)
  {
    var s := a + b;
    assert s[0] == a[0];
    assert |a| == 1 || s[1] == a[1];
    assert s[1..] == a[1..] + b;
  }

  /** Position `i` of `s` starts a `<sigil>\w+` token: the sigil followed by a word character. */
  predicate StartsToken(s: string, i: int, sigil: char) {
    0 <= i && i + 1 < |s| && s[i] == sigil && IsWordChar(s[i + 1])
  }

  /** The token at a start: the sigil and the whole run of word characters after it. */
  function TokenAt(s: string, p: int, sigil: char): (m: string)
    requires StartsToken(s, p, sigil)
    ensures IsToken(m, sigil)
  {
    s[p..p + 1 + WordRun(s[p + 1..])]
  }

  /** The positions from `i` on that start a token, in increasing order. */
  function Starts(s: string, i: nat, sigil: char): seq<nat>
    decreases |s| - i
  {
    if i >= |s| then [] else (if StartsToken(s, i, sigil) then [i] else []) + Starts(s, i + 1, sigil)
  }

  /** `Starts` lists only token starts at or after `i`. */
  lemma {:induction false} StartsSound(s: string, i: nat, sigil: char)
    ensures forall p :: p in Starts(s, i, sigil) ==> i <= p && StartsToken(s, p, sigil)
    decreases |s| - i
  {
    if i < |s| {
      StartsSound(s, i + 1, sigil);
    }
  }

  /** `Starts` lists every token start at or after `i`. */
  lemma {:induction false} StartsComplete(s: string, i: nat, sigil: char)
    ensures forall p :: i <= p && StartsToken(s, p, sigil) ==> p in Starts(s, i, sigil)
    decreases |s| - i
  {
    if i < |s| {
      StartsComplete(s, i + 1, sigil);
    }
  }

  /** `Starts` is increasing. */
  lemma {:induction false} StartsIncreasing(s: string, i: nat, sigil: char)
    ensures forall k, l :: 0 <= k < l < |Starts(s, i, sigil)| ==> Starts(s, i, sigil)[k] < Starts(s, i, sigil)[l]
    decreases |s| - i
  {
    if i < |s| {
      StartsIncreasing(s, i + 1, sigil);
      StartsSound(s, i + 1, sigil);
      var rest := Starts(s, i + 1, sigil);
      assert forall k, l :: 0 <= k < l < |rest| ==> rest[k] < rest[l];
      if StartsToken(s, i, sigil) {
        var ps := Starts(s, i, sigil);
        assert ps == [i] + rest;
        forall k, l | 0 <= k < l < |ps|
          ensures ps[k] < ps[l]
        {
          assert ps[l] == rest[l - 1] && rest[l - 1] in rest;
          if k > 0 {
            assert ps[k] == rest[k - 1];
            assert rest[k - 1] < rest[l - 1];
          }
        }
      } else {
        assert Starts(s, i, sigil) == rest;
      }
    }
  }

  /** `Starts` lists exactly the token starts at or after `i`, each once, in increasing order. */
  lemma StartsExactly(s: string, i: nat, sigil: char)
    ensures var ps := Starts(s, i, sigil);
            && (forall p :: p in ps <==> i <= p && StartsToken(s, p, sigil))
            && (forall k, l :: 0 <= k < l < |ps| ==> ps[k] < ps[l])
  {
    StartsSound(s, i, sigil);
    StartsComplete(s, i, sigil);
    StartsIncreasing(s, i, sigil);
  }

  /** Positions that start no token can be skipped. */
  lemma {:induction false} StartsSkip(s: string, i: nat, j: nat, sigil: char)
    requires i <= j <= |s|
    requires forall q :: i <= q < j ==> !StartsToken(s, q, sigil)
    ensures Starts(s, i, sigil) == Starts(s, j, sigil)
    decreases j - i
  {
    if i < j {
      StartsSkip(s, i + 1, j, sigil);
    }
  }

  /** The scan of `s[i..]` finds the token at each start from `i` on, in order. */
  lemma {:induction false} MatchesFrom(s: string, i: nat, sigil: char)
    requires i <= |s| && !IsWordChar(sigil)
    ensures var ms, ps := Matches(s[i..], sigil), Starts(s, i, sigil);
            && |ms| == |ps|
            && forall k :: 0 <= k < |ps| ==> StartsToken(s, ps[k], sigil) && ms[k] == TokenAt(s, ps[k], sigil)
    decreases |s| - i
  {
    if i < |s| {
      if StartsToken(s, i, sigil) {
        var j := MatchesTokenAt(s, i, sigil);
        MatchesFrom(s, j, sigil);
      } else {
        MatchesSkipAt(s, i, sigil);
        MatchesFrom(s, i + 1, sigil);
      }
    }
  }

  /** One skip step of the scan: a position that starts no token adds no match. */
  lemma MatchesSkipAt(s: string, i: nat, sigil: char)
    requires i < |s| && !StartsToken(s, i, sigil)
    ensures Matches(s[i..], sigil) == Matches(s[i + 1..], sigil)
    ensures Starts(s, i, sigil) == Starts(s, i + 1, sigil)
  {
    var t := s[i..];
    assert t[0] == s[i] && t[1..] == s[i + 1..];
  }

  /** One token step of the scan: the token at `i`, then the scan resumes at `j` with no start between. */
  lemma MatchesTokenAt(s: string, i: nat, sigil: char) returns (j: nat)
    requires StartsToken(s, i, sigil) && !IsWordChar(sigil)
    ensures i < j <= |s|
    ensures Matches(s[i..], sigil) == [TokenAt(s, i, sigil)] + Matches(s[j..], sigil)
    ensures Starts(s, i, sigil) == [i] + Starts(s, j, sigil)
  {
    var t := s[i..];
    assert t[0] == s[i] && t[1] == s[i + 1] && t[1..] == s[i + 1..];
    var n := WordRun(t[1..]);
    j := i + 1 + n;
    assert t[..1 + n] == s[i..j];
    assert t[1 + n..] == s[j..];
    forall q | i + 1 <= q < j
      ensures !StartsToken(s, q, sigil)
    {
      assert s[q] == t[1..][q - i - 1];
    }
    StartsSkip(s, i + 1, j, sigil);
  }

  /**
   * `s.match(/<sigil>\w+/g)` is complete: its k-th match is the token at the k-th position
   * where the sigil is followed by a word character, and every such position gives a match.
   */
  lemma MatchesAreTokenStarts(s: string, sigil: char)
    requires !IsWordChar(sigil)
    ensures var ms, ps := Matches(s, sigil), Starts(s, 0, sigil);
            && |ms| == |ps|
            && (forall k :: 0 <= k < |ps| ==> StartsToken(s, ps[k], sigil) && ms[k] == TokenAt(s, ps[k], sigil))
            && (forall p :: p in ps <==> StartsToken(s, p, sigil))
            && (forall k, l :: 0 <= k < l < |ps| ==> ps[k] < ps[l])
  {
    assert s[0..] == s;
    MatchesFrom(s, 0, sigil);
    StartsExactly(s, 0, sigil);
  }

  /** There is no match exactly when the sigil is never followed by a word character. */
  lemma NoMatches(s: string, sigil: char)
    requires !IsWordChar(sigil)
    ensures Matches(s, sigil) == [] <==> forall i :: 0 <= i < |s| - 1 ==> !(s[i] == sigil && IsWordChar(s[i + 1]))
  {
    MatchesAreTokenStarts(s, sigil);
    var ps := Starts(s, 0, sigil);
    if ps != [] {
      assert StartsToken(s, ps[0], sigil);
    } else {
      forall i | 0 <= i < |s| - 1
        ensures !(s[i] == sigil && IsWordChar(s[i + 1]))
      {
        assert i !in ps;
      }
    }
  }

  /** Hashtags and mentions are found at every `#` or `@` followed by a word character, in order. */
  lemma TagsAreComplete(s: string)
    ensures var hs, ps := Hashtags(s), Starts(s, 0, '#');
            && |hs| == |ps|
            && (forall k :: 0 <= k < |ps| ==> StartsToken(s, ps[k], '#') && ['#'] + hs[k] == TokenAt(s, ps[k], '#'))
            && (forall p :: p in ps <==> StartsToken(s, p, '#'))
    ensures var ms, ps := Mentions(s), Starts(s, 0, '@');
            && |ms| == |ps|
            && (forall k :: 0 <= k < |ps| ==> StartsToken(s, ps[k], '@') && ms[k] == TokenAt(s, ps[k], '@'))
            && (forall p :: p in ps <==> StartsToken(s, p, '@'))
  {
    MatchesAreTokenStarts(s, '#');
    MatchesAreTokenStarts(s, '@');
    HashtagsAreMatches(s);
  }

  // ---------------------------------------------------------------------------------------------
  // The word-packing mock splitter (reached only with the mock key)

  // The emoji literals of the mock branch, spelled as the source file spells them.
  const MockSparkles := "\U{00E2}\U{0153}\U{00A8}"
  const MockRocket := "\U{00F0}\U{0178}\U{0161}\U{20AC}"
  const MockThread := "\U{00F0}\U{0178}\U{00A7}\U{00B5}"
  const MockPointDown := "\U{00F0}\U{0178}\U{2018}\U{2021}"
  const MockCheck := "\U{00E2}\U{0153}\U{2026}"

  function MockHashtags(platform: string): seq<string>
  {
    if platform == "instagram" then ["content", "socialmedia"]
    else if platform == "linkedin" then ["professional", "insights"]
    else ["trending", "thoughts"]
  }

  function Post(content: string, hashtags: seq<string>): (p: GeminiPost)
    ensures p.content == content && p.characterCount == |content| && p.hashtags == hashtags && p.mentions == []
  {
    GeminiPost(content, |content|, hashtags, [])
  }

  /** `${postIndex}/${totalPosts} ` when there is more than one post. */
  function ThreadIndicator(postIndex: nat, totalPosts: int): string
  {
    if totalPosts > 1 then NatToRadix(postIndex, 10) + "/" + NatToRadix(totalPosts, 10) + " " else ""
  }

  /** The mock reply's posts: the prompt whole when short, else words packed into at most `maxPosts` posts. */
  method MockPosts(prompt: string, platform: string, useEmojis: bool, maxPosts: int)
    returns (posts: seq<GeminiPost>)
    ensures maxPosts >= 1 ==> |posts| <= maxPosts
    ensures forall p :: p in posts ==> p.characterCount == |p.content|
    ensures |prompt| <= PlatformInfo(platform).charLimit - 50 ==>
              |posts| == 1 &&
              posts[0].content == (if useEmojis then MockSparkles + " " else "") + prompt + (if useEmojis then " " + MockRocket else "")
  {
    var limit := PlatformInfo(platform).charLimit;
    posts := [];
    if |prompt| <= limit - 50 {
      var mockContent := (if useEmojis then MockSparkles + " " else "") + prompt + (if useEmojis then " " + MockRocket else "");
      posts := posts + [Post(mockContent, MockHashtags(platform))];
    } else {
      var words := SplitOn(prompt, ' ');
      var currentPost := "";
      var postIndex: nat := 1;
      var totalPosts := Min((|words| + 9) / 10, maxPosts);
      var i := 0;
      while i < |words|
        invariant 0 <= i <= |words|
        invariant |posts| == postIndex - 1
        invariant maxPosts >= 1 ==> postIndex <= maxPosts
        invariant forall p :: p in posts ==> p.characterCount == |p.content|
      {
        var word := words[i];
        if |currentPost| + 1 + |word| > limit - 50 {
          var emojiSuffix := if useEmojis then " " + (if postIndex == 1 then MockThread else MockPointDown) else "";
          var finalContent := ThreadIndicator(postIndex, totalPosts) + Trim(currentPost) + emojiSuffix;
          posts := posts + [Post(finalContent, if postIndex == 1 then ["thread", "content"] else [])];
          currentPost := word;
          postIndex := postIndex + 1;
          if postIndex > maxPosts {
            break;
          }
        } else {
          currentPost := if currentPost != "" then currentPost + " " + word else word;
        }
        i := i + 1;
      }
      if currentPost != "" && postIndex <= maxPosts {
        var emojiSuffix := if useEmojis then " " + MockCheck else "";
        var finalContent := ThreadIndicator(postIndex, totalPosts) + Trim(currentPost) + emojiSuffix;
        posts := posts + [Post(finalContent, ["end", "thread"])];
      }
    }
  }

  // ---------------------------------------------------------------------------------------------
  // callGeminiAPI

  function SumCounts(posts: seq<GeminiPost>): int
  {
    if posts == [] then 0 else posts[0].characterCount + SumCounts(posts[1..])
  }

  /** The normalisation applied to every parsed post: missing fields get defaults. */
  function NormalizePost(p: RawPost): (r: GeminiPost)
    ensures r.content == OrString(p.content, "")
    ensures r.characterCount == CountOrLength(p.characterCount, p.content)
    ensures r.hashtags == p.hashtags.GetOr([]) && r.mentions == p.mentions.GetOr([])
    ensures p.characterCount.None? ==> r.characterCount == |r.content|
  {
    GeminiPost(OrString(p.content, ""), CountOrLength(p.characterCount, p.content),
               p.hashtags.GetOr([]), p.mentions.GetOr([]))
  }

  /** The metadata computed from the request and the posts returned. */
  function ComputedMetadata(options: RequestOptions, posts: seq<GeminiPost>): Metadata
  {
    Metadata(|posts|, options.platform, options.tones, options.useEmojis, SumCounts(posts))
  }

  /** `{...computed, ...parsedResponse.metadata}`: fields the provider sent win. */
  function Override(m: Metadata, p: ProviderMetadata): Metadata
  {
    Metadata(p.totalPosts.GetOr(m.totalPosts), p.platform.GetOr(m.platform), p.tones.GetOr(m.tones),
             p.useEmojis.GetOr(m.useEmojis), p.totalCharacters.GetOr(m.totalCharacters))
  }

  /** `callGeminiAPI`, with the configured key and the provider's reply as inputs. */
  method CallGeminiAPI(options: RequestOptions, configuredKey: Option<string>, reply: ProviderReply)
    returns (r: GeminiResponse)
    ensures !r.success <==> !UsesMock(ApiKey(configuredKey)) && reply.CallFailed?
    ensures r.success ==> r.error == None
    ensures !r.success ==> r.posts == [] && r.error == Some(reply.message)
                           && r.metadata.totalPosts == 0 && r.metadata.totalCharacters == 0
    ensures UsesMock(ApiKey(configuredKey)) ==> options.maxPosts.GetOr(10) >= 1 ==> |r.posts| <= options.maxPosts.GetOr(10)
    ensures !UsesMock(ApiKey(configuredKey)) && reply.Replied? && reply.parse.Unparsable? ==>
              r.posts == FallbackPosts(Trim(reply.text), PlatformInfo(options.platform).charLimit)
    ensures !UsesMock(ApiKey(configuredKey)) && reply.Replied? && reply.parse.Parsed? ==>
              |r.posts| == |reply.parse.raw| &&
              forall i :: 0 <= i < |r.posts| ==> r.posts[i] == NormalizePost(reply.parse.raw[i])
    ensures (UsesMock(ApiKey(configuredKey)) || (reply.Replied? && (reply.parse.Unparsable? || reply.parse.meta.totalCharacters.None?)))
              ==> r.metadata.totalCharacters == SumCounts(r.posts)
    ensures r.metadata.platform == options.platform || (reply.Replied? && reply.parse.Parsed? && reply.parse.meta.platform.Some?)
    ensures !r.success ==> r.metadata == Metadata(0, options.platform, options.tones, options.useEmojis, 0)
    ensures (UsesMock(ApiKey(configuredKey)) || (reply.Replied? && reply.parse.Unparsable?)) ==>
              r.metadata == ComputedMetadata(options, r.posts)
    ensures !UsesMock(ApiKey(configuredKey)) && reply.Replied? && reply.parse.Parsed? ==>
              r.metadata == Override(ComputedMetadata(options, r.posts), reply.parse.meta)
  {
    var maxPosts := options.maxPosts.GetOr(10);
    var apiKey := ApiKey(configuredKey);
    var platformInfo := PlatformInfo(options.platform);
    if UsesMock(apiKey) {
      var mockPosts := MockPosts(options.prompt, options.platform, options.useEmojis, maxPosts);
      r := GeminiResponse(mockPosts, true, None, ComputedMetadata(options, mockPosts));
    } else {
      match reply
      case CallFailed(message) =>
        r := GeminiResponse([], false, Some(message), Metadata(0, options.platform, options.tones, options.useEmojis, 0));
      case Replied(text, Parsed(raw, meta)) =>
        var posts := seq(|raw|, i requires 0 <= i < |raw| => NormalizePost(raw[i]));
        r := GeminiResponse(posts, true, None, Override(ComputedMetadata(options, posts), meta));
      case Replied(text, Unparsable) =>
        var fallbackPosts := CreateFallbackPosts(Trim(text), options.platform, platformInfo.charLimit, options.useEmojis);
        r := GeminiResponse(fallbackPosts, true, None, ComputedMetadata(options, fallbackPosts));
    }
  }
}
