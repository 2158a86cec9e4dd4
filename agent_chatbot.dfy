/** The agent chat page of advanced-rag-assistant/streamlit/agent_chatbot.py:
    the session id, the `s3://bucket/key` split used to download a cited
    file, and one chat turn, which folds the agent's event stream into
    text parts and citations, collects the cited files' locators, stores
    the interaction and extends the chat history. The random picks, the
    clock and the agent's stream are inputs. */
module AgentChatbot {
  import opened Wrappers
  import S3Uri

  // ---------------------------------------------------------------------
  // Session id (`session_generator`)

  predicate IsDigit(c: char) { '0' <= c <= '9' }
  predicate IsLower(c: char) { 'a' <= c <= 'z' }

  /** Four random digits and three random lower-case letters. */
  predicate ValidPicks(digits: string, letters: string) {
    |digits| == 4 && |letters| == 3 &&
    (forall k :: 0 <= k < 4 ==> IsDigit(digits[k])) &&
    (forall k :: 0 <= k < 3 ==> IsLower(letters[k]))
  }

  /** `f"{d[0]}{c[0]}{d[1:3]}{c[1]}-{d[3]}{c[2]}"` */
  function SessionId(digits: string, letters: string): string
    requires ValidPicks(digits, letters)
  {
    [digits[0], letters[0]] + digits[1..3] + [letters[1], '-', digits[3], letters[2]]
  }

  /** The shape of a session id: digit, letter, digit, digit, letter, '-',
      digit, letter (as in "1a23b-4c"). */
  predicate WellFormedSessionId(id: string) {
    |id| == 8 && id[5] == '-' &&
    IsDigit(id[0]) && IsDigit(id[2]) && IsDigit(id[3]) && IsDigit(id[6]) &&
    IsLower(id[1]) && IsLower(id[4]) && IsLower(id[7])
  }

  /** The digits and the letters of a session id, in pick order. */
  function Picks(id: string): (string, string)
    requires |id| == 8
  {
    ([id[0], id[2], id[3], id[6]], [id[1], id[4], id[7]])
  }

  /** Every generated id has the pattern and gives back the picks it was
      made from; every id of the pattern is generated from its own picks.
      So the generator is a bijection between picks and well-formed ids. */
  lemma SessionIdRoundTrip(digits: string, letters: string, id: string)
    requires ValidPicks(digits, letters)
    requires WellFormedSessionId(id)
    ensures WellFormedSessionId(SessionId(digits, letters))
    ensures Picks(SessionId(digits, letters)) == (digits, letters)
    ensures ValidPicks(Picks(id).0, Picks(id).1) && SessionId(Picks(id).0, Picks(id).1) == id
  {
    var s := SessionId(digits, letters);
    assert s[0] == digits[0] && s[2] == digits[1] && s[3] == digits[2] && s[6] == digits[3];
    assert s[1] == letters[0] && s[4] == letters[1] && s[7] == letters[2];
    assert Picks(s).0 == digits;
    assert Picks(s).1 == letters;
    var (d, c) := Picks(id);
    assert SessionId(d, c) == id;
  }

  // ---------------------------------------------------------------------
  // The S3 split (`download_s3_file`)

  /** The index of the first `c` in `s`. */
  function FirstIndex(s: string, c: char): (i: nat)
    requires c in s
    ensures i < |s| && s[i] == c
    ensures forall k :: 0 <= k < i ==> s[k] != c
  {
    if s[0] == c then 0 else 1 + FirstIndex(s[1..], c)
  }

  /** A position holding `c` with no `c` before it is the first index. */
  lemma {:induction false} FirstIndexAt(s: string, c: char, i: nat)
    requires i < |s| && s[i] == c
    requires forall k :: 0 <= k < i ==> s[k] != c
    ensures c in s && FirstIndex(s, c) == i
  {
    assert s[i] == c;
    if i > 0 {
      assert s[0] != c;
      FirstIndexAt(s[1..], c, i - 1);
    }
  }

  /** `s.split(c, 1)` when it has two parts. */
  function SplitOnce(s: string, c: char): Option<(string, string)> {
    if c in s then Some((s[..FirstIndex(s, c)], s[FirstIndex(s, c) + 1..])) else None
  }

  /** What follows the first '/' of `s`, or all of `s` without one. */
  function AfterSlash(s: string): string {
    if '/' in s then s[FirstIndex(s, '/') + 1..] else s
  }

  lemma AfterSlashIsSuffix(s: string)
    ensures EndsWith(s, AfterSlash(s))
  {
    if '/' in s {
      var i := FirstIndex(s, '/');
      assert s[|s| - |s[i + 1..]|..] == s[i + 1..];
    }
  }

  /** `s.split('/', 2)[-1]`: what follows the second '/', or what follows
      the only one, or all of `s`. */
  function AfterSlashes(s: string): string {
    AfterSlash(AfterSlash(s))
  }

  /** `bucket_name, key = uri.split('/', 2)[-1].split('/', 1)`; `None`
      where the unpacking raises because no '/' is left. */
  function SplitUri(uri: string): Option<(string, string)> {
    SplitOnce(AfterSlashes(uri), '/')
  }

  /** Where the last '/'-free stretch of `key[..n]` starts: just after
      the last '/' before `n`, or at 0 when there is none. */
  function LastPieceStart(key: string, n: nat): (j: nat)
    requires n <= |key|
    ensures j <= n && (j == 0 || key[j - 1] == '/')
    ensures forall k :: j <= k < n ==> key[k] != '/'
    decreases n
  {
    if n == 0 then 0 else if key[n - 1] == '/' then n else LastPieceStart(key, n - 1)
  }

  /** `key.split('/')[-1]`: the longest suffix of the key without '/',
      which is the whole key or follows a '/'. */
  function LocalFileName(key: string): (name: string)
    ensures '/' !in name && EndsWith(key, name)
    ensures |name| == |key| || key[|key| - |name| - 1] == '/'
  {
    key[LastPieceStart(key, |key|)..]
  }

  /** Splitting the locator of an object in a bucket whose name has no '/'
      gives back the bucket and the key, whatever the key holds. */
  lemma SplitUriOfUrl(bucket: string, key: string)
    requires '/' !in bucket
    ensures SplitUri(S3Uri.Url(bucket, key)) == Some((bucket, key))
  {
    var rest := bucket + "/" + key;
    assert S3Uri.Url(bucket, key) == S3Uri.Scheme + rest;
    AfterScheme(S3Uri.Url(bucket, key), rest);
    SplitAtBucket(bucket, key);
  }

  /** The first '/' after a bucket name without one ends the bucket. */
  lemma SplitAtBucket(bucket: string, key: string)
    requires '/' !in bucket
    ensures SplitOnce(bucket + "/" + key, '/') == Some((bucket, key))
  {
    var rest := bucket + "/" + key;
    FirstIndexAt(rest, '/', |bucket|);
    assert rest[..|bucket|] == bucket;
    assert rest[|bucket| + 1..] == key;
  }

  /** The two slashes of the scheme are consumed first. */
  lemma AfterScheme(u: string, rest: string)
    requires u == S3Uri.Scheme + rest
    ensures AfterSlashes(u) == rest
  {
    assert u[0] == 's' && u[1] == '3' && u[2] == ':' && u[3] == '/';
    FirstIndexAt(u, '/', 3);
    var once := u[4..];
    assert once == "/" + rest;
    FirstIndexAt(once, '/', 0);
    assert once[1..] == rest;
  }

  /** A two-part split cuts at a `c` and the first part has none; there
      is no split exactly when `s` has no `c`. */
  lemma SplitOnceShape(s: string, c: char)
    ensures SplitOnce(s, c).Some? ==>
              c !in SplitOnce(s, c).value.0 &&
              s == SplitOnce(s, c).value.0 + [c] + SplitOnce(s, c).value.1
    ensures SplitOnce(s, c).None? <==> c !in s
  {
    if c in s {
      var i := FirstIndex(s, c);
      assert s == s[..i] + [c] + s[i + 1..];
      assert forall k :: 0 <= k < i ==> s[..i][k] != c;
    }
  }

  /** A successful split names a bucket without '/' and a key that end the
      locator as "bucket/key"; it fails exactly when no '/' is left after
      the scheme's two. */
  lemma SplitUriShape(uri: string)
    ensures SplitUri(uri).Some? ==>
              '/' !in SplitUri(uri).value.0 &&
              EndsWith(uri, SplitUri(uri).value.0 + "/" + SplitUri(uri).value.1)
    ensures SplitUri(uri).None? <==> '/' !in AfterSlashes(uri)
  {
    var tail := AfterSlashes(uri);
    AfterSlashIsSuffix(uri);
    AfterSlashIsSuffix(AfterSlash(uri));
    EndsWithTransitive(uri, AfterSlash(uri), tail);
    SplitOnceShape(tail, '/');
    if SplitUri(uri).Some? {
      var (bucket, key) := SplitUri(uri).value;
      assert tail == bucket + "/" + key;
    }
  }

  predicate EndsWith(s: string, suffix: string) {
    |suffix| <= |s| && s[|s| - |suffix|..] == suffix
  }

  /** A suffix of a suffix is a suffix. */
  lemma EndsWithTransitive(s: string, t: string, u: string)
    requires EndsWith(s, t) && EndsWith(t, u)
    ensures EndsWith(s, u)
  {
    assert s[|s| - |u|..] == t[|t| - |u|..];
  }

  /** The downloaded file is named after the last piece of the key: a key
      ending in "/name" gives "name". */
  lemma LocalFileNameOfKey(prefix: string, name: string)
    requires '/' !in name
    ensures LocalFileName(prefix + "/" + name) == name
  {
    var key := prefix + "/" + name;
    assert key[|prefix|] == '/';
    assert forall k :: |prefix| < k < |key| ==> key[k] == name[k - |prefix| - 1];
    assert key[|prefix| + 1..] == name;
  }

  // ---------------------------------------------------------------------
  // The agent's event stream

  /** A retrieved reference: its S3 locator and its text. */
  datatype Reference = Reference(uri: string, content: string)
  /** A citation: the generated text it supports and its references. */
  datatype Citation = Citation(text: string, references: seq<Reference>)
  /** The `attribution` entry; `citations` may be missing. */
  datatype Attribution = Attribution(citations: Option<seq<Citation>>)
  /** The `chunk` entry; `bytes` and `attribution` may be missing. */
  datatype Chunk = Chunk(bytes: Option<string>, attribution: Option<Attribution>)
  /** One element of `return_stream`; `chunk` may be missing. */
  datatype StreamEvent = StreamEvent(chunk: Option<Chunk>)

  /** The element carries a text part. */
  predicate HasBytes(e: StreamEvent) {
    e.chunk.Some? && e.chunk.value.bytes.Some?
  }

  /** The citations an element contributes: those of a text-carrying
      element with an attribution that lists citations. */
  function EventCitations(e: StreamEvent): seq<Citation> {
    if HasBytes(e) && e.chunk.value.attribution.Some? && e.chunk.value.attribution.value.citations.Some?
    then e.chunk.value.attribution.value.citations.value
    else []
  }

  /** The text parts of a stream, in stream order. */
  function TextParts(stream: seq<StreamEvent>): seq<string> {
    if stream == [] then []
    else TextParts(stream[..|stream| - 1]) + EventText(stream[|stream| - 1])
  }

  /** The citations of a stream, flattened in stream order. */
  function StreamCitations(stream: seq<StreamEvent>): seq<Citation> {
    if stream == [] then []
    else StreamCitations(stream[..|stream| - 1]) + EventCitations(stream[|stream| - 1])
  }

  /** The text part an element contributes. */
  function EventText(e: StreamEvent): seq<string> {
    if HasBytes(e) then [e.chunk.value.bytes.value] else []
  }

  /** Both folds distribute over concatenation of streams: each element
      contributes on its own, in place. */
  lemma FoldsAppend(a: seq<StreamEvent>, b: seq<StreamEvent>)
    ensures TextParts(a + b) == TextParts(a) + TextParts(b)
    ensures StreamCitations(a + b) == StreamCitations(a) + StreamCitations(b)
  {
    TextPartsAppend(a, b);
    StreamCitationsAppend(a, b);
  }

  lemma {:induction false} TextPartsAppend(a: seq<StreamEvent>, b: seq<StreamEvent>)
    ensures TextParts(a + b) == TextParts(a) + TextParts(b)
    decreases |b|
  {
    if b == [] {
      assert a + b == a;
    } else {
      var b', e := b[..|b| - 1], b[|b| - 1];
      DropLast(a, b);
      TextPartsAppend(a, b');
      assert TextParts(a) + TextParts(b') + EventText(e) == TextParts(a) + (TextParts(b') + EventText(e));
    }
  }

  lemma {:induction false} StreamCitationsAppend(a: seq<StreamEvent>, b: seq<StreamEvent>)
    ensures StreamCitations(a + b) == StreamCitations(a) + StreamCitations(b)
    decreases |b|
  {
    if b == [] {
      assert a + b == a;
    } else {
      var b', e := b[..|b| - 1], b[|b| - 1];
      DropLast(a, b);
      StreamCitationsAppend(a, b');
      assert StreamCitations(a) + StreamCitations(b') + EventCitations(e)
          == StreamCitations(a) + (StreamCitations(b') + EventCitations(e));
    }
  }

  /** The last element of a concatenation with a non-empty right part. */
  lemma DropLast(a: seq<StreamEvent>, b: seq<StreamEvent>)
    requires b != []
    ensures (a + b)[..|a + b| - 1] == a + b[..|b| - 1]
    ensures (a + b)[|a + b| - 1] == b[|b| - 1]
  {
  }

  /** One text part per text-carrying element, and citations only when
      some element carried text: a stream with citations always has a
      first text part. */
  lemma {:induction false} CitationsComeWithText(stream: seq<StreamEvent>)
    ensures |TextParts(stream)| + CountWithout(stream) == |stream|
    ensures StreamCitations(stream) != [] ==> TextParts(stream) != []
    decreases |stream|
  {
    if stream != [] {
      CitationsComeWithText(stream[..|stream| - 1]);
    }
  }

  /** The elements without text. */
  function CountWithout(stream: seq<StreamEvent>): nat {
    if stream == [] then 0
    else CountWithout(stream[..|stream| - 1]) + (if HasBytes(stream[|stream| - 1]) then 0 else 1)
  }

  /** The loop over `return_stream`: append each element's text part and,
      within it, each of its citations. */
  method FoldStream(stream: seq<StreamEvent>) returns (texts: seq<string>, citations: seq<Citation>)
    ensures texts == TextParts(stream)
    ensures citations == StreamCitations(stream)
  {
    texts, citations := [], [];
    for i := 0 to |stream|
      invariant texts == TextParts(stream[..i])
      invariant citations == StreamCitations(stream[..i])
    {
      assert stream[..i + 1][..i] == stream[..i];
      var e := stream[i];
      if e.chunk.Some? && e.chunk.value.bytes.Some? {
        texts := texts + [e.chunk.value.bytes.value];
        var attribution := e.chunk.value.attribution;
        if attribution.Some? && attribution.value.citations.Some? {
          var list := attribution.value.citations.value;
          ghost var before := citations;
          for j := 0 to |list|
            invariant citations == before + list[..j]
          {
            citations := citations + [list[j]];
          }
          assert list[..|list|] == list;
        }
      }
    }
    assert stream[..|stream|] == stream;
  }

  /** The locators of every reference of every citation, in order. */
  function ReferenceUris(citations: seq<Citation>): seq<string> {
    if citations == [] then []
    else ReferenceUris(citations[..|citations| - 1]) + UrisOf(citations[|citations| - 1].references)
  }

  function UrisOf(references: seq<Reference>): seq<string> {
    seq(|references|, k requires 0 <= k < |references| => references[k].uri)
  }

  /** The number of references of all citations. */
  function ReferenceCount(citations: seq<Citation>): nat {
    if citations == [] then 0
    else ReferenceCount(citations[..|citations| - 1]) + |citations[|citations| - 1].references|
  }

  /** `urls` has one entry per retrieved reference across all citations. */
  lemma {:induction false} ReferenceUrisCount(citations: seq<Citation>)
    ensures |ReferenceUris(citations)| == ReferenceCount(citations)
    decreases |citations|
  {
    if citations != [] {
      ReferenceUrisCount(citations[..|citations| - 1]);
    }
  }

  /** `download_s3_file(uri)` returns: the locator splits into a bucket
      and a key, and `fetched` says the object was downloaded. */
  function Downloads(fetched: (string, string) -> bool, uri: string): (ok: bool)
    ensures ok ==> SplitUri(uri).Some?
  {
    SplitUri(uri).Some? && fetched(SplitUri(uri).value.0, SplitUri(uri).value.1)
  }

  /** Every reference's file can be downloaded. */
  predicate AllDownloaded(citations: seq<Citation>, download: string -> bool) {
    forall u :: u in ReferenceUris(citations) ==> download(u)
  }

  /** The loop over the citations and their references: each reference's
      file is downloaded, which may raise and end the turn, and its
      locator appended to `urls`. */
  method CollectUrls(citations: seq<Citation>, download: string -> bool) returns (ok: bool, urls: seq<string>)
    ensures ok <==> AllDownloaded(citations, download)
    ensures ok ==> urls == ReferenceUris(citations)
  {
    urls := [];
    for i := 0 to |citations|
      invariant urls == ReferenceUris(citations[..i])
      invariant AllDownloaded(citations[..i], download)
    {
      assert citations[..i + 1][..i] == citations[..i];
      var references := citations[i].references;
      ghost var uris := UrisOf(references);
      ghost var before := urls;
      for j := 0 to |references|
        invariant urls == before + uris[..j]
        invariant forall u :: u in urls ==> download(u)
      {
        var uri := references[j].uri;
        if !download(uri) {
          assert uri in ReferenceUris(citations[..i + 1]) by {
            assert uri == uris[j];
          }
          PrefixUris(citations, i + 1);
          return false, urls;
        }
        assert uris[..j + 1] == uris[..j] + [uri];
        urls := urls + [uri];
      }
      assert uris[..|references|] == uris;
    }
    assert citations[..|citations|] == citations;
    ok := true;
  }

  /** A locator of the first n citations is one of all citations. */
  lemma {:induction false} PrefixUris(citations: seq<Citation>, n: nat)
    requires n <= |citations|
    ensures forall u :: u in ReferenceUris(citations[..n]) ==> u in ReferenceUris(citations)
    decreases |citations| - n
  {
    if n < |citations| {
      PrefixUris(citations, n + 1);
      assert citations[..n + 1][..n] == citations[..n];
    } else {
      assert citations[..n] == citations;
    }
  }

  // ---------------------------------------------------------------------
  // One chat turn

  datatype Message = Message(role: string, content: string)

  /** The item stored per answered question. */
  datatype Interaction = Interaction(sessionId: string, timestamp: int, question: string, displayText: string, urls: seq<string>)

  /** The page's state across turns: the session id, the chat history and
      the interactions table. */
  class ChatSession {
    var sessionId: string
    var messages: seq<Message>
    var interactions: seq<Interaction>

    /** A fresh page: an empty history and the id built from the picks. */
    constructor (digits: string, letters: string)
      requires ValidPicks(digits, letters)
      ensures sessionId == SessionId(digits, letters) && messages == [] && interactions == []
    {
      sessionId := SessionId(digits, letters);
      messages := [];
      interactions := [];
    }

    /** One question: the user's message is recorded first; the answer
        shown and stored is always the stream's first text part, with the
        locators of every cited reference. The turn breaks off after the
        user's message when a cited file cannot be downloaded (its locator
        does not split, or `fetched` says the object could not be read),
        when the stream has no text, or when writing the citation record
        fails (`stored` is false), since the assistant's message is added
        only after that write. */
    method Turn(question: string, stream: seq<StreamEvent>, now: int, fetched: (string, string) -> bool, stored: bool)
      returns (ok: bool)
      modifies this
      ensures sessionId == old(sessionId)
      ensures ok <==> TextParts(stream) != [] &&
                      AllDownloaded(StreamCitations(stream), u => Downloads(fetched, u)) && stored
      ensures ok ==>
                var text := TextParts(stream)[0];
                messages == old(messages) + [Message("user", question), Message("assistant", text)] &&
                interactions == old(interactions) +
                  [Interaction(sessionId, now, question, text, ReferenceUris(StreamCitations(stream)))]
      ensures !ok ==> messages == old(messages) + [Message("user", question)] && interactions == old(interactions)
    {
      var texts, citations := FoldStream(stream);
      messages := messages + [Message("user", question)];
      var urls: seq<string> := [];
      if citations != [] {
        var downloaded;
        downloaded, urls := CollectUrls(citations, u => Downloads(fetched, u));
        if !downloaded {
          CitationsComeWithText(stream);
          return false;
        }
      }
      if texts == [] {
        CitationsComeWithText(stream);
        return false;
      }
      if !stored {
        return false;
      }
      interactions := interactions + [Interaction(sessionId, now, question, texts[0], urls)];
      messages := messages + [Message("assistant", texts[0])];
      ok := true;
    }
  }
}
