/** Canonical DNS host names as a server-name indication may carry them. */
module Hostname {
  import opened Wrappers

  const DOT: Byte := 46
  const HYPHEN: Byte := 45

  predicate IsAlphanumeric(b: Byte) {
    48 <= b <= 57 || 65 <= b <= 90 || 97 <= b <= 122
  }

  predicate IsLabelByte(b: Byte) {
    IsAlphanumeric(b) || b == HYPHEN
  }

  /** One label: 1 to 63 letters, digits and hyphens, with no hyphen at either end. */
  predicate IsLabel(part: seq<Byte>) {
    && 1 <= |part| <= 63
    && (forall i :: 0 <= i < |part| ==> IsLabelByte(part[i]))
    && part[0] != HYPHEN
    && part[|part| - 1] != HYPHEN
  }

  predicate AllLabels(labels: seq<seq<Byte>>) {
    forall i :: 0 <= i < |labels| ==> IsLabel(labels[i])
  }

  /** The labels with single dots between them. */
  function Join(labels: seq<seq<Byte>>): seq<Byte>
    requires labels != []
  {
    if |labels| == 1 then labels[0] else labels[0] + [DOT] + Join(labels[1..])
  }

  /** What a host name is, said without splitting anything. */
  ghost predicate IsHostname(host: seq<Byte>) {
    && |host| <= 253
    && exists labels :: labels != [] && AllLabels(labels) && Join(labels) == host
  }

  function LowerByte(b: Byte): Byte {
    if 65 <= b <= 90 then b + 32 else b
  }

  function Lower(host: seq<Byte>): (lower: seq<Byte>)
    ensures |lower| == |host|
  {
    seq(|host|, i requires 0 <= i < |host| => LowerByte(host[i]))
  }

  // ------------------------------------------------------------------
  // Splitting
  // ------------------------------------------------------------------

  /** Length of the text before the first dot. */
  function FirstDot(host: seq<Byte>): (n: nat)
    ensures n <= |host|
    ensures DOT !in host[..n]
    ensures n < |host| ==> host[n] == DOT
  {
    if host == [] || host[0] == DOT then 0
    else
      var n := FirstDot(host[1..]) + 1;
      assert host[..n] == [host[0]] + host[1..][..n - 1];
      n
  }

  /** The pieces between dots, one more than there are dots. */
  function Split(host: seq<Byte>): (pieces: seq<seq<Byte>>)
    ensures pieces != []
    decreases |host|
  {
    var n := FirstDot(host);
    if n == |host| then [host] else [host[..n]] + Split(host[n + 1..])
  }

  lemma FirstDotUnique(host: seq<Byte>, n: nat)
    requires n <= |host| && DOT !in host[..n] && (n < |host| ==> host[n] == DOT)
    ensures FirstDot(host) == n
  {
  }

  lemma LabelHasNoDot(part: seq<Byte>)
    requires IsLabel(part)
    ensures DOT !in part
  {
  }

  lemma SplitAtDot(head: seq<Byte>, tail: seq<Byte>)
    requires DOT !in head
    ensures Split(head + [DOT] + tail) == [head] + Split(tail)
  {
    var host := head + [DOT] + tail;
    FirstDotUnique(host, |head|);
    assert host[..|head|] == head && host[|head| + 1..] == tail;
  }

  lemma {:induction false} JoinSplits(labels: seq<seq<Byte>>)
    requires labels != [] && AllLabels(labels)
    ensures Split(Join(labels)) == labels
    decreases |labels|
  {
    LabelHasNoDot(labels[0]);
    if |labels| == 1 {
      FirstDotUnique(labels[0], |labels[0]|);
    } else {
      SplitAtDot(labels[0], Join(labels[1..]));
      JoinSplits(labels[1..]);
    }
  }

  lemma JoinCons(head: seq<Byte>, tail: seq<seq<Byte>>)
    requires tail != []
    ensures Join([head] + tail) == head + [DOT] + Join(tail)
  {
    assert ([head] + tail)[1..] == tail;
  }

  lemma CutAtDot(host: seq<Byte>, n: nat)
    requires n < |host| && host[n] == DOT
    ensures host == host[..n] + [DOT] + host[n + 1..]
  {
  }

  lemma {:induction false} SplitJoins(host: seq<Byte>)
    ensures Join(Split(host)) == host
    decreases |host|
  {
    var n := FirstDot(host);
    if n == |host| {
      assert Split(host) == [host];
    } else {
      var tail := host[n + 1..];
      assert Split(host) == [host[..n]] + Split(tail);
      JoinCons(host[..n], Split(tail));
      SplitJoins(tail);
      CutAtDot(host, n);
    }
  }

  /** Splitting at dots and joining with dots are the same test. */
  lemma HostnameBySplitting(host: seq<Byte>)
    ensures IsHostname(host) <==> |host| <= 253 && AllLabels(Split(host))
  {
    if IsHostname(host) {
      var labels :| labels != [] && AllLabels(labels) && Join(labels) == host;
      JoinSplits(labels);
    }
    SplitJoins(host);
  }

  lemma {:induction false} EndsInLabel(labels: seq<seq<Byte>>)
    requires labels != [] && AllLabels(labels)
    ensures var host := Join(labels);
            host != [] && host[|host| - 1] != DOT && forall i :: 0 <= i < |host| ==> host[i] < 128
    decreases |labels|
  {
    LabelHasNoDot(labels[0]);
    if |labels| > 1 {
      EndsInLabel(labels[1..]);
    }
  }

  // ------------------------------------------------------------------
  // The check
  // ------------------------------------------------------------------

  method CheckLabel(part: seq<Byte>) returns (ok: bool)
    ensures ok == IsLabel(part)
  {
    if part == [] || |part| > 63 || part[0] == HYPHEN || part[|part| - 1] == HYPHEN {
      return false;
    }
    for i := 0 to |part|
      invariant forall k :: 0 <= k < i ==> IsLabelByte(part[k])
    {
      if !IsLabelByte(part[i]) {
        return false;
      }
    }
    return true;
  }

  method CheckLabels(host: seq<Byte>) returns (ok: bool)
    ensures ok == AllLabels(Split(host))
  {
    var pieces := Split(host);
    for i := 0 to |pieces|
      invariant forall k :: 0 <= k < i ==> IsLabel(pieces[k])
    {
      ok := CheckLabel(pieces[i]);
      if !ok {
        return;
      }
    }
    return true;
  }

  /**
   * A host is accepted exactly when it is a host name and not the text of an
   * address, and is then returned in lower case.
   */
  method CanonicalHostname(host: seq<Byte>, isAddress: seq<Byte> -> bool) returns (canonical: Option<seq<Byte>>)
    ensures canonical == if IsHostname(host) && !isAddress(host) then Some(Lower(host)) else None
  {
    HostnameBySplitting(host);
    SplitJoins(host);
    if AllLabels(Split(host)) {
      EndsInLabel(Split(host));
    }
    if host == [] || |host| > 253 || (exists i :: 0 <= i < |host| && host[i] >= 128) || host[|host| - 1] == DOT {
      return None;
    }
    if isAddress(host) {
      return None;
    }
    var ok := CheckLabels(host);
    return if ok then Some(Lower(host)) else None;
  }
}
