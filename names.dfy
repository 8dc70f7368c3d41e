/**
 * Derived resource names (create_docker_name): a sanitised, truncated title,
 * an optional sanitised, truncated container name and the first sixteen hex
 * digits of an MD5 digest, joined with underscores.
 */
module DockerNames {
  import opened PyStrings

  predicate IsLowerHex(c: char) {
    ('0' <= c <= '9') || ('a' <= c <= 'f')
  }

  /** What `hashlib.md5(...).hexdigest()` returns: 32 lowercase hex digits (RFC 1321). */
  type Digest = s: string | |s| == 32 && forall k :: 0 <= k < |s| ==> IsLowerHex(s[k])
    witness "00000000000000000000000000000000"

  /** The MD5 hex digest of a string's UTF-8 encoding, supplied by the caller. */
  type Md5 = string -> Digest

  /** The regex character class `[A-Za-z0-9_.-]`. */
  predicate IsNameChar(c: char) {
    ('A' <= c <= 'Z') || ('a' <= c <= 'z') || ('0' <= c <= '9') || c == '_' || c == '.' || c == '-'
  }

  /** The characters a derived tag may contain: `[a-z0-9_.-]`. */
  predicate IsTagChar(c: char) {
    ('a' <= c <= 'z') || ('0' <= c <= '9') || c == '_' || c == '.' || c == '-'
  }

  /** The characters `lstrip("_.-")` removes. */
  predicate IsSeparator(c: char) {
    c == '_' || c == '.' || c == '-'
  }

  predicate AllTagChars(s: string) {
    forall k :: 0 <= k < |s| ==> IsTagChar(s[k])
  }

  /** `re.sub(r"[^A-Za-z0-9_.-]", "", s)` */
  function KeepNameChars(s: string): (r: string)
    ensures forall k :: 0 <= k < |r| ==> IsNameChar(r[k])
    ensures |r| <= |s|
  {
    if s == [] then []
    else (if IsNameChar(s[0]) then [s[0]] else []) + KeepNameChars(s[1..])
  }

  /** `s.lstrip("_.-")` */
  function StripSeparators(s: string): (r: string)
    ensures r == "" || !IsSeparator(r[0])
    decreases |s|
  {
    if s != [] && IsSeparator(s[0]) then StripSeparators(s[1..]) else s
  }

  /** What `lstrip` leaves is a suffix of its argument. */
  lemma {:induction false} StrippedIsSuffix(s: string)
    ensures var r := StripSeparators(s); |r| <= |s| && r == s[|s| - |r|..]
    decreases |s|
  {
    if s != [] && IsSeparator(s[0]) {
      StrippedIsSuffix(s[1..]);
      var r := StripSeparators(s);
      assert s[1..][|s| - 1 - |r|..] == s[|s| - |r|..];
    }
  }

  function LowerChar(c: char): char {
    if 'A' <= c <= 'Z' then (c as int + 32) as char else c
  }

  /**
   * `s.lower()`. Only ASCII letters reach this step (everything else has been
   * filtered out), and on those Python's lower() is this map.
   */
  function LowerAscii(s: string): (r: string)
    ensures |r| == |s|
    ensures forall k :: 0 <= k < |s| ==> r[k] == LowerChar(s[k])
  {
    if s == [] then [] else [LowerChar(s[0])] + LowerAscii(s[1..])
  }

  /** Lines 287-290 (and 293-296): spaces to `_`, filter, strip leading separators, lowercase. */
  function Sanitize(s: string): (r: string)
    ensures AllTagChars(r)
    ensures r == "" || !IsSeparator(r[0])
  {
    var kept := KeepNameChars(ReplaceChar(s, ' ', '_'));
    var stripped := StripSeparators(kept);
    StrippedIsSuffix(kept);
    assert forall k :: 0 <= k < |stripped| ==> stripped[k] == kept[|kept| - |stripped| + k];
    LowerAscii(stripped)
  }

  /** `s[:n]` */
  function Take(s: string, n: nat): (r: string)
    ensures |r| <= n && StartsWith(s, r)
    ensures |s| <= n ==> r == s
  {
    if |s| <= n then s else s[..n]
  }

  /**
   * create_docker_name(title, container_name, chall_id). An empty container name
   * or challenge id stands for None as well: the source treats both alike.
   */
  function DockerName(md5: Md5, title: string, containerName: string, challengeId: string): string {
    var digest := md5(title + "|" + containerName + "|" + challengeId);
    var t := Take(Sanitize(title), 32);
    if containerName != "" then t + "_" + Take(Sanitize(containerName), 16) + "_" + digest[..16]
    else t + "_" + digest[..16]
  }

  /** No derived tag holds a colon. */
  lemma TagHasNoColon(tag: string)
    requires AllTagChars(tag)
    ensures forall k :: 0 <= k < |tag| ==> tag[k] != ':'
  {
    forall k | 0 <= k < |tag| ensures tag[k] != ':' {
      assert IsTagChar(tag[k]);
    }
  }

  /**
   * A derived name is a valid tag of bounded length: at most 32 characters of
   * title, 16 of container name and 16 of digest with their separators, made of
   * tag characters only, and ending with the first 16 hex digits of the digest.
   */
  lemma DockerNameShape(md5: Md5, title: string, containerName: string, challengeId: string)
    ensures var r := DockerName(md5, title, containerName, challengeId);
      && (containerName != "" ==> |r| <= 66)
      && (containerName == "" ==> |r| <= 49)
      && AllTagChars(r)
      && EndsWith(r, md5(title + "|" + containerName + "|" + challengeId)[..16])
  {
    var digest := md5(title + "|" + containerName + "|" + challengeId);
    var tail := digest[..16];
    assert AllTagChars(tail) by {
      assert forall k :: 0 <= k < 16 ==> tail[k] == digest[k] && IsLowerHex(digest[k]);
    }
    var t := Take(Sanitize(title), 32);
    var front := if containerName != "" then t + "_" + Take(Sanitize(containerName), 16) + "_" else t + "_";
    assert AllTagChars(front) && |front| <= (if containerName != "" then 50 else 33) by {
      assert AllTagChars("_");
      PrefixTagChars(t, "_");
      if containerName != "" {
        PrefixTagChars(t + "_", Take(Sanitize(containerName), 16));
        PrefixTagChars(t + "_" + Take(Sanitize(containerName), 16), "_");
      }
    }
    assert DockerName(md5, title, containerName, challengeId) == front + tail;
    PrefixTagChars(front, tail);
    assert (front + tail)[|front|..] == tail;
  }

  /** The tag of the solution image: `"sol_"` and the two-argument name (lines 495-496, 632-634). */
  function SolutionTag(md5: Md5, title: string, challengeId: string): string {
    "sol_" + DockerName(md5, title, "", challengeId)
  }

  /** The solution tag is a valid tag of at most 53 characters, starting with `sol_`. */
  lemma SolutionTagShape(md5: Md5, title: string, challengeId: string)
    ensures var r := SolutionTag(md5, title, challengeId);
      |r| <= 53 && AllTagChars(r) && StartsWith(r, "sol_")
  {
    var name := DockerName(md5, title, "", challengeId);
    DockerNameShape(md5, title, "", challengeId);
    PrefixTagChars("sol_", name);
  }

  lemma PrefixTagChars(p: string, s: string)
    requires AllTagChars(p) && AllTagChars(s)
    ensures AllTagChars(p + s)
  {
    forall k | 0 <= k < |p + s| ensures IsTagChar((p + s)[k]) {
      if k < |p| { assert (p + s)[k] == p[k]; } else { assert (p + s)[k] == s[k - |p|]; }
    }
  }

  /** A derived tag has no colon, so `split(":")[0]` of its `:latest` form gives it back. */
  lemma TagSurvivesRepoTag(tag: string, version: string)
    requires AllTagChars(tag)
    ensures BeforeColon(tag + ":" + version) == tag
  {
    BeforeColonOfTagged(tag, version);
  }

  /** The sanitised title part, when not empty, starts with none of `_`, `.`, `-`. */
  lemma TitlePartStartsClean(md5: Md5, title: string, containerName: string, challengeId: string)
    ensures var t := Take(Sanitize(title), 32);
      StartsWith(DockerName(md5, title, containerName, challengeId), t + "_")
      && (t == "" || !IsSeparator(t[0]))
  {
    var t := Take(Sanitize(title), 32);
    var digest := md5(title + "|" + containerName + "|" + challengeId);
    var rest := if containerName != "" then Take(Sanitize(containerName), 16) + "_" + digest[..16] else digest[..16];
    assert DockerName(md5, title, containerName, challengeId) == (t + "_") + rest;
    assert ((t + "_") + rest)[..|t + "_"|] == t + "_";
  }

  /** Sanitising is idempotent: a sanitised string is left as it is. */
  lemma {:induction false} SanitizeIdempotent(s: string)
    ensures Sanitize(Sanitize(s)) == Sanitize(s)
  {
    var t := Sanitize(s);
    NoSpaceUnchanged(t);
    TagCharsKept(t);
    assert StripSeparators(t) == t;
    LowerOfTagChars(t);
  }

  lemma {:induction false} NoSpaceUnchanged(t: string)
    requires AllTagChars(t)
    ensures ReplaceChar(t, ' ', '_') == t
  {
  }

  lemma {:induction false} TagCharsKept(t: string)
    requires AllTagChars(t)
    ensures KeepNameChars(t) == t
    decreases |t|
  {
    if t != [] {
      TagCharsKept(t[1..]);
      assert [t[0]] + t[1..] == t;
    }
  }

  lemma {:induction false} LowerOfTagChars(t: string)
    requires AllTagChars(t)
    ensures LowerAscii(t) == t
  {
  }
}
