/** The Bean Validation constraints the request records use, with their null semantics:
    `@NotBlank` rejects null, `@Size` and `@NotNull`-free fields accept null. */
module Constraints {
  import opened Wrappers

  /** `@NotBlank`: present, and not empty once leading and trailing characters up to U+0020 are trimmed. */
  predicate NotBlank(s: Option<string>) {
    s.Some? && exists i :: 0 <= i < |s.value| && s.value[i] > ' '
  }

  /** `@Size(min, max)`: a null value is valid; otherwise its length lies in [min, max]. */
  predicate SizeWithin(s: Option<string>, min: nat, max: nat) {
    s.None? || min <= |s.value| <= max
  }

  /** `String.trim`: drops every leading and trailing character up to U+0020. */
  function Trim(s: string): string {
    TrimEnd(TrimStart(s))
  }

  function TrimStart(s: string): (r: string)
    ensures |r| <= |s| && r == s[|s| - |r|..]
    ensures |r| > 0 ==> r[0] > ' '
  {
    if |s| > 0 && s[0] <= ' ' then TrimStart(s[1..]) else s
  }

  function TrimEnd(s: string): (r: string)
    ensures |r| <= |s| && r == s[..|r|]
    ensures |r| > 0 ==> r[|r| - 1] > ' '
  {
    if |s| > 0 && s[|s| - 1] <= ' ' then TrimEnd(s[..|s| - 1]) else s
  }

  /** Leading trim leaves something iff some character lies above U+0020. */
  lemma {:induction false} TrimStartNonEmpty(s: string)
    ensures |TrimStart(s)| > 0 <==> exists i :: 0 <= i < |s| && s[i] > ' '
  {
    if |s| > 0 && s[0] <= ' ' {
      TrimStartNonEmpty(s[1..]);
      if exists i :: 0 <= i < |s| && s[i] > ' ' {
        var i :| 0 <= i < |s| && s[i] > ' ';
        assert s[1..][i - 1] == s[i];
      }
      forall i | 0 <= i < |s| - 1 && s[1..][i] > ' '
        ensures s[i + 1] > ' '
      {
      }
    }
  }

  /** Trailing trim never removes a leading character above U+0020. */
  lemma {:induction false} TrimEndKeepsFirst(s: string)
    requires |s| > 0 && s[0] > ' '
    ensures |TrimEnd(s)| > 0
  {
    if s[|s| - 1] <= ' ' {
      TrimEndKeepsFirst(s[..|s| - 1]);
    }
  }

  /** The `@NotBlank` check agrees with the trim-then-length test the validator performs:
      a present string is accepted iff trimming it leaves something. */
  lemma NotBlankIsTrimNonEmpty(s: string)
    ensures NotBlank(Some(s)) <==> |Trim(s)| > 0
    ensures (forall i :: 0 <= i < |s| ==> s[i] <= ' ') ==> !NotBlank(Some(s))
  {
    TrimStartNonEmpty(s);
    if |TrimStart(s)| > 0 {
      TrimEndKeepsFirst(TrimStart(s));
    }
  }
}
