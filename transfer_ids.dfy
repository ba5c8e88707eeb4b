/**
 * Transfer identifiers: the guard that every id coming from a client passes
 * before a storage path is built from it, and the form of the ids the
 * dispenser hands out.
 *
 * The guard is `preg_match('/^[0-9a-fA-F]{32}$/', $id)`. Without the `D`
 * modifier, PCRE's `$` matches at the very end of the subject and also just
 * before a newline that is the subject's last character, so the guard also
 * admits 32 hex digits followed by one "\n".
 */
module TransferIds {
  import opened PhpValues

  predicate IsHexDigit(c: char)
  {
    ('0' <= c <= '9') || ('a' <= c <= 'f') || ('A' <= c <= 'F')
  }

  predicate IsLowerHexDigit(c: char)
  {
    ('0' <= c <= '9') || ('a' <= c <= 'f')
  }

  /** PCRE `$` without `D`: end of subject, or a final newline. */
  predicate AtEndAnchor(rest: string)
  {
    rest == "" || rest == "\n"
  }

  /**
   * The matcher for `[0-9a-fA-F]{n}$` at the current position: `n` more hex
   * digits, then the end anchor.
   */
  predicate MatchHexRun(s: string, n: nat)
    decreases n
  {
    if n == 0 then AtEndAnchor(s)
    else |s| > 0 && IsHexDigit(s[0]) && MatchHexRun(s[1..], n - 1)
  }

  /** `isValidTransferId($id)` on a string: `^` anchors the run at offset 0. */
  predicate IsValidTransferId(s: string)
  {
    MatchHexRun(s, 32)
  }

  /**
   * `isValidTransferId` on any PHP value: `preg_match` converts scalars to
   * strings, and no scalar other than a string converts to 32 hex digits
   * (integers have at most 19 digits), so only strings can pass.
   */
  predicate IsValidId(v: Value)
  {
    v.Str? && IsValidTransferId(v.s)
  }

  /** The shape the pattern accepts, written directly: 32 hex digits, optionally one "\n". */
  predicate HasTransferIdShape(s: string)
  {
    && (|s| == 32 || (|s| == 33 && s[32] == '\n'))
    && forall i :: 0 <= i < 32 ==> IsHexDigit(s[i])
  }

  lemma {:induction false} MatchHexRunShape(s: string, n: nat)
    ensures MatchHexRun(s, n) <==>
      && (|s| == n || (|s| == n + 1 && s[n] == '\n'))
      && forall i :: 0 <= i < n ==> IsHexDigit(s[i])
    decreases n
  {
    if n > 0 && |s| > 0 {
      var t := s[1..];
      MatchHexRunShape(t, n - 1);
      if |s| >= n {
        assert (forall i :: 0 <= i < n - 1 ==> IsHexDigit(t[i])) <==>
               (forall i :: 1 <= i < n ==> IsHexDigit(s[i])) by {
          forall i | 0 <= i < n - 1 ensures t[i] == s[i + 1] { }
          forall i | 1 <= i < n ensures s[i] == t[i - 1] { }
        }
      }
    }
  }

  /** The guard holds exactly for 32 hex digits, optionally followed by one "\n". */
  lemma ValidTransferIdShape(s: string)
    ensures IsValidTransferId(s) <==> HasTransferIdShape(s)
  {
    MatchHexRunShape(s, 32);
  }

  /** The PCRE quirk: a 33-character subject ending in "\n" passes the guard. */
  lemma TrailingNewlineAccepted(h: string)
    requires |h| == 32 && forall i :: 0 <= i < 32 ==> IsHexDigit(h[i])
    ensures IsValidTransferId(h + "\n") && |h + "\n"| == 33
    ensures !IsValidTransferId(h + "\n\n") && !IsValidTransferId("\n" + h)
  {
    ValidTransferIdShape(h + "\n");
    ValidTransferIdShape(h + "\n\n");
    ValidTransferIdShape("\n" + h);
    assert ("\n" + h)[0] == '\n';
  }

  /**
   * A string that passes the guard is a single, harmless path component:
   * no separator, no dot, so `path/id` never escapes `path`.
   */
  lemma ValidIdIsPathComponent(s: string)
    requires IsValidTransferId(s)
    ensures 32 <= |s| <= 33
    ensures forall i :: 0 <= i < |s| ==> s[i] != '/' && s[i] != '\\' && s[i] != '.'
  {
    ValidTransferIdShape(s);
  }

  /**
   * The form of a dispensed id: `md5(...)` yields 32 lower-case hex digits.
   * The dispenser itself (a hash of a time-based value) is an oracle; this is
   * the only property assumed of its output.
   */
  predicate IsMd5Digest(s: string)
  {
    |s| == 32 && forall i :: 0 <= i < |s| ==> IsLowerHexDigit(s[i])
  }

  /** Every dispensed id passes the guard, so a fresh upload can later be reverted. */
  lemma DispensedIdIsValid(s: string)
    requires IsMd5Digest(s)
    ensures IsValidTransferId(s)
  {
    ValidTransferIdShape(s);
  }
}
