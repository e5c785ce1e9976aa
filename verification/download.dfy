/** The pure part of queueing a download: which query yt-dlp is given, where
    the file goes, and the file-name sanitiser. */
module Download {
  import opened Wrappers
  import opened Text

  /** The characters the sanitiser keeps: [a-zA-Z0-9_-]. */
  predicate IsFileNameChar(c: char) {
    ('a' <= c <= 'z') || ('A' <= c <= 'Z') || ('0' <= c <= '9') || c == '_' || c == '-'
  }

  /** sanitizeFileName: every code point outside [a-zA-Z0-9_-] becomes '_'. */
  function SanitizeFileName(s: string): (r: string)
    ensures |r| == |s|
    ensures forall i :: 0 <= i < |s| ==> r[i] == if IsFileNameChar(s[i]) then s[i] else '_'
    decreases |s|
  {
    if |s| == 0 then ""
    else [if IsFileNameChar(s[0]) then s[0] else '_'] + SanitizeFileName(s[1..])
  }

  /** Every character of a sanitised name is one the sanitiser keeps, so
      sanitising twice is sanitising once. */
  lemma SanitizeIdempotent(s: string)
    ensures forall i :: 0 <= i < |SanitizeFileName(s)| ==> IsFileNameChar(SanitizeFileName(s)[i])
    ensures SanitizeFileName(SanitizeFileName(s)) == SanitizeFileName(s)
  {
  }

  /** A name already made of kept characters comes back unchanged. */
  lemma SanitizeKeepsCleanNames(s: string)
    requires forall i :: 0 <= i < |s| ==> IsFileNameChar(s[i])
    ensures SanitizeFileName(s) == s
  {
  }

  /** A YouTube link: the text mentions youtube.com or youtu.be. */
  predicate IsLink(s: string) {
    Contains(s, "youtube.com") || Contains(s, "youtu.be")
  }

  /** The search query: a YouTube link as it is, anything else as a yt-dlp search. */
  function DownloadQuery(input: string): (q: string)
    ensures q == input <==> IsLink(input)
    ensures q != input ==> |q| == |input| + 9 && q[..9] == "ytsearch:" && q[9..] == input
  {
    if IsLink(input) then input else "ytsearch:" + input
  }

  /** The input a query was made from: the text after the search prefix
      when that text is not a link, the query itself otherwise. */
  function QueryInput(q: string): string {
    if |q| >= 9 && q[..9] == "ytsearch:" && !IsLink(q[9..]) then q[9..] else q
  }

  /** A link that starts with the search prefix has its link after the prefix:
      neither "youtube.com" nor "youtu.be" can start inside "ytsearch:". */
  lemma LinkAfterPrefix(s: string, sub: string)
    requires |s| >= 9 && s[..9] == "ytsearch:" && Contains(s, sub)
    requires sub == "youtube.com" || sub == "youtu.be"
    ensures Contains(s[9..], sub)
  {
    var i :| 0 <= i <= |s| - |sub| && OccursAt(s, sub, i);
    assert s[i] == s[i..i + |sub|][0] == 'y';
    assert s[i + 1] == s[i..i + |sub|][1] == 'o';
    assert s[1] == s[..9][1] == 't';
    forall j | 0 < j < 9 ensures s[j] != 'y' {
      assert s[j] == s[..9][j];
    }
    assert s[9..][i - 9..i - 9 + |sub|] == s[i..i + |sub|];
    assert OccursAt(s[9..], sub, i - 9);
  }

  /** The query loses nothing: the input can be read back from it. */
  lemma QueryInputRoundTrip(input: string)
    ensures QueryInput(DownloadQuery(input)) == input
  {
    if IsLink(input) && |input| >= 9 && input[..9] == "ytsearch:" {
      if Contains(input, "youtube.com") {
        LinkAfterPrefix(input, "youtube.com");
      } else {
        LinkAfterPrefix(input, "youtu.be");
      }
    }
  }

  /** Where the downloaded audio is written. */
  function OutputFilePath(serverFolder: string, input: string): (p: string)
    ensures |p| == |serverFolder| + |input| + 5
    ensures p[..|serverFolder|] == serverFolder && p[|serverFolder| + |input|..] == ".webm"
    ensures forall i :: |serverFolder| <= i < |serverFolder| + |input| ==> IsFileNameChar(p[i])
  {
    SanitizeIdempotent(input);
    serverFolder + SanitizeFileName(input) + ".webm"
  }

  /** The job queueAndPlay puts on the download queue. */
  datatype DownloadJob = DownloadJob(query: string, outputPath: string, title: string)

  /** queueAndPlay up to the enqueue: a null or empty title is refused with a
      message and nothing is queued; otherwise the job carries the query, the
      output path and the title as typed. */
  function QueueAndPlay(input: Option<string>, serverFolder: string): (r: Result<DownloadJob, string>)
    ensures input.None? || input == Some("") <==> r.Err?
    ensures r.Err? ==> r.error == "Invalid track title."
    ensures r.Ok? ==> (r.value.title == input.value
                       && r.value.query == DownloadQuery(input.value)
                       && r.value.outputPath == OutputFilePath(serverFolder, input.value))
  {
    if input.None? || input.value == "" then Err("Invalid track title.")
    else Ok(DownloadJob(DownloadQuery(input.value), OutputFilePath(serverFolder, input.value), input.value))
  }

  /** Worked cases: a plain title is searched for, a YouTube link is used
      as it is, and spaces and punctuation in the file name become '_'. */
  lemma DownloadExamples()
    ensures DownloadQuery("lofi beats") == "ytsearch:lofi beats"
    ensures DownloadQuery("https://youtu.be/x") == "https://youtu.be/x"
    ensures SanitizeFileName("a b!") == "a_b_"
  {
    assert OccursAt("https://youtu.be/x", "youtu.be", 8);
    var plain := "lofi beats";
    forall i | 0 <= i <= |plain| - |"youtu.be"| ensures !OccursAt(plain, "youtu.be", i) {
      assert plain[i..i + 8][0] == plain[i] != 'y';
    }
  }
}
