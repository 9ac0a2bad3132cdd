/** The approval digest: which fields of an action an approval is bound to. */
module Digest {
  import opened Domain

  const NUL: char := 0 as char

  predicate IsSpace(c: char) {
    var n := c as int;
    9 <= n <= 13 || n in {32, 0x85, 0xA0, 0x1680, 0x2028, 0x2029, 0x202F, 0x205F, 0x3000} || 0x2000 <= n <= 0x200A
  }

  function TrimLeft(s: string): string {
    if s != [] && IsSpace(s[0]) then TrimLeft(s[1..]) else s
  }

  function TrimRight(s: string): string {
    if s != [] && IsSpace(s[|s| - 1]) then TrimRight(s[..|s| - 1]) else s
  }

  function TrimSpace(s: string): string {
    TrimRight(TrimLeft(s))
  }

  /** The ASCII spaces and controls, the two Latin-1 spaces, and the space separators of Unicode. */
  lemma SpaceIff(c: char)
    ensures IsSpace(c)
            <==> || c in "\t\n\r \U{0B}\U{0C}\U{85}\U{A0}"
                 || c in "\U{1680}\U{2028}\U{2029}\U{202F}\U{205F}\U{3000}"
                 || '\U{2000}' <= c <= '\U{200A}'
  {
  }

  predicate Blank(s: string) {
    forall k :: 0 <= k < |s| ==> IsSpace(s[k])
  }

  lemma {:induction false} TrimLeftSplits(s: string) returns (before: string)
    ensures s == before + TrimLeft(s) && Blank(before)
    ensures TrimLeft(s) != "" ==> !IsSpace(TrimLeft(s)[0])
  {
    before := "";
    if s != "" && IsSpace(s[0]) {
      var rest := TrimLeftSplits(s[1..]);
      before := [s[0]] + rest;
      assert s == [s[0]] + s[1..];
    }
  }

  lemma {:induction false} TrimRightSplits(s: string) returns (after: string)
    ensures s == TrimRight(s) + after && Blank(after)
    ensures TrimRight(s) != "" ==> !IsSpace(TrimRight(s)[|TrimRight(s)| - 1])
  {
    after := "";
    if s != "" && IsSpace(s[|s| - 1]) {
      var rest := TrimRightSplits(s[..|s| - 1]);
      after := rest + [s[|s| - 1]];
      assert s == s[..|s| - 1] + [s[|s| - 1]];
    }
  }

  /** Trimming takes the white space at both ends, all of it, and nothing else. */
  lemma TrimSpaceSplits(s: string) returns (before: string, after: string)
    ensures s == before + TrimSpace(s) + after && Blank(before) && Blank(after)
    ensures var core := TrimSpace(s); core != "" ==> !IsSpace(core[0]) && !IsSpace(core[|core| - 1])
  {
    before := TrimLeftSplits(s);
    after := TrimRightSplits(TrimLeft(s));
    var core := TrimSpace(s);
    assert core != "" ==> core[0] == TrimLeft(s)[0];
  }

  /** The parts joined by NUL characters. */
  function Join(parts: seq<string>): string {
    if parts == [] then []
    else if |parts| == 1 then parts[0]
    else parts[0] + [NUL] + Join(parts[1..])
  }

  function Parts(action: Action, policy: string): seq<string> {
    [IdText(action.id), action.actionType, action.target, action.parameters, action.risk, TrimSpace(policy)]
  }

  /** The digest's preimage. SHA-256 is taken to be collision-free, so the preimage
      stands for the digest throughout; DigestBindsAction speaks of any injective hash. */
  function ActionApprovalDigest(action: Action, policy: string): string {
    Join(Parts(action, policy))
  }

  predicate NulFree(s: string) {
    NUL !in s
  }

  function CountNul(s: string): nat {
    if s == [] then 0 else (if s[0] == NUL then 1 else 0) + CountNul(s[1..])
  }

  lemma {:induction false} CountNulOfConcat(s: string, t: string)
    ensures CountNul(s + t) == CountNul(s) + CountNul(t)
  {
    if s == [] {
      assert s + t == t;
    } else {
      assert (s + t)[1..] == s[1..] + t;
      CountNulOfConcat(s[1..], t);
    }
  }

  lemma {:induction false} CountNulZero(s: string)
    ensures CountNul(s) == 0 <==> NulFree(s)
  {
    if s != [] {
      assert s == [s[0]] + s[1..];
      CountNulZero(s[1..]);
    }
  }

  /** A join of n parts holds at least n - 1 separators, and exactly n - 1 when every part is NUL-free. */
  lemma {:induction false} CountNulOfJoin(parts: seq<string>)
    requires parts != []
    ensures CountNul(Join(parts)) >= |parts| - 1
    ensures CountNul(Join(parts)) == |parts| - 1 <==> forall p :: p in parts ==> NulFree(p)
  {
    CountNulZero(parts[0]);
    if |parts| > 1 {
      CountNulOfJoin(parts[1..]);
      CountNulOfConcat(parts[0] + [NUL], Join(parts[1..]));
      CountNulOfConcat(parts[0], [NUL]);
      assert parts == [parts[0]] + parts[1..];
    }
  }

  lemma {:induction false} HeadsAgree(p: string, x: string, q: string, y: string)
    requires NulFree(p) && NulFree(q)
    requires p + [NUL] + x == q + [NUL] + y
    ensures p == q && x == y
  {
    var whole := p + [NUL] + x;
    assert whole[|p|] == NUL && whole[|q|] == NUL;
    assert |p| == |q|;
    assert p == whole[..|p|] && q == whole[..|p|];
    assert x == whole[|p| + 1..] && y == whole[|p| + 1..];
  }

  lemma {:induction false} JoinIsInjective(parts: seq<string>, other: seq<string>)
    requires parts != [] && |other| == |parts|
    requires forall p :: p in parts ==> NulFree(p)
    requires Join(parts) == Join(other)
    ensures parts == other
  {
    CountNulOfJoin(parts);
    CountNulOfJoin(other);
    if |parts| > 1 {
      HeadsAgree(parts[0], Join(parts[1..]), other[0], Join(other[1..]));
      JoinIsInjective(parts[1..], other[1..]);
      assert parts == [parts[0]] + parts[1..] && other == [other[0]] + other[1..];
    }
  }

  /** Only the text a + NUL + b of two neighbouring parts reaches the join. */
  lemma {:induction false} JoinForgetsBoundary(parts: seq<string>, k: nat, a: string, b: string)
    requires k + 1 < |parts|
    requires a + [NUL] + b == parts[k] + [NUL] + parts[k + 1]
    ensures Join(parts[k := a][k + 1 := b]) == Join(parts)
  {
    var other := parts[k := a][k + 1 := b];
    if k > 0 {
      assert other[1..] == parts[1..][k - 1 := a][k := b];
      JoinForgetsBoundary(parts[1..], k - 1, a, b);
    } else if |parts| == 2 {
      assert Join(other) == a + [NUL] + Join(other[1..]) == a + [NUL] + b;
      assert Join(parts) == parts[0] + [NUL] + Join(parts[1..]) == parts[0] + [NUL] + parts[1];
    } else {
      var rest := [NUL] + Join(parts[2..]);
      assert other[1..][1..] == parts[2..] && parts[1..][1..] == parts[2..];
      assert Join(other) == a + [NUL] + (b + [NUL] + Join(parts[2..])) == (a + [NUL] + b) + rest;
      assert Join(parts) == parts[0] + [NUL] + (parts[1] + [NUL] + Join(parts[2..])) == (parts[0] + [NUL] + parts[1]) + rest;
    }
  }

  ghost predicate Unambiguous(parts: seq<string>) {
    forall other: seq<string> :: |other| == |parts| && Join(other) == Join(parts) ==> other == parts
  }

  /** A joined text determines its parts exactly when none of them contains the separator. */
  lemma UnambiguousIff(parts: seq<string>)
    requires |parts| >= 2
    ensures Unambiguous(parts) <==> forall p :: p in parts ==> NulFree(p)
  {
    if forall p :: p in parts ==> NulFree(p) {
      forall other: seq<string> | |other| == |parts| && Join(other) == Join(parts) ensures other == parts {
        JoinIsInjective(parts, other);
      }
    } else {
      var k :| 0 <= k < |parts| && !NulFree(parts[k]);
      var other := Collision(parts, k);
      assert !Unambiguous(parts);
    }
  }

  /** Moving the boundary to a NUL inside a part gives other parts with the same join. */
  lemma Collision(parts: seq<string>, k: nat) returns (other: seq<string>)
    requires |parts| >= 2 && k < |parts| && !NulFree(parts[k])
    ensures |other| == |parts| && other != parts && Join(other) == Join(parts)
  {
    var i :| 0 <= i < |parts[k]| && parts[k][i] == NUL;
    var u, v := parts[k][..i], parts[k][i + 1..];
    assert parts[k] == u + [NUL] + v;
    if k + 1 < |parts| {
      var w := v + [NUL] + parts[k + 1];
      assert u + [NUL] + w == parts[k] + [NUL] + parts[k + 1];
      JoinForgetsBoundary(parts, k, u, w);
      other := parts[k := u][k + 1 := w];
      assert other[k] == u && |u| < |parts[k]|;
    } else {
      var w := parts[k - 1] + [NUL] + u;
      assert w + [NUL] + v == parts[k - 1] + [NUL] + parts[k];
      JoinForgetsBoundary(parts, k - 1, w, v);
      other := parts[k - 1 := w][k := v];
      assert other[k] == v && |v| < |parts[k]|;
    }
  }

  ghost predicate Injective(hash: string -> string) {
    forall x, y :: hash(x) == hash(y) ==> x == y
  }

  /** With a collision-free hash and NUL-free fields, equal digests mean the same id, type,
      target, parameters and risk, and policy rules equal up to surrounding white space.
      Nothing is said of the status or of the evidence, which the digest does not cover. */
  lemma DigestBindsAction(hash: string -> string, a: Action, p: string, b: Action, q: string)
    requires Injective(hash)
    requires forall part :: part in Parts(a, p) ==> NulFree(part)
    ensures hash(ActionApprovalDigest(a, p)) == hash(ActionApprovalDigest(b, q))
            <==> a.id == b.id && a.actionType == b.actionType && a.target == b.target && a.parameters == b.parameters
                 && a.risk == b.risk && TrimSpace(p) == TrimSpace(q)
  {
    var left, right := Parts(a, p), Parts(b, q);
    if hash(Join(left)) == hash(Join(right)) {
      JoinIsInjective(left, right);
      assert forall k :: 0 <= k < 6 ==> left[k] == right[k];
      assert left[0] == right[0];
      IdTextIsInjective(a.id, b.id);
      assert left[1] == right[1] && left[2] == right[2];
      assert left[3] == right[3] && left[4] == right[4] && left[5] == right[5];
    }
  }

  /** Without the side condition two different actions share a digest: a NUL in the type. */
  lemma NulInFieldCollides()
    ensures var a := Action(1, 0, "restart" + [NUL] + "db", "queue", "{}", RISK_LOW, [1], ActionApproved, 0);
            var b := Action(1, 0, "restart", "db" + [NUL] + "queue", "{}", RISK_LOW, [1], ActionApproved, 0);
            a.target != b.target && ActionApprovalDigest(a, "p") == ActionApprovalDigest(b, "p")
  {
    var a := Action(1, 0, "restart" + [NUL] + "db", "queue", "{}", RISK_LOW, [1], ActionApproved, 0);
    var b := Action(1, 0, "restart", "db" + [NUL] + "queue", "{}", RISK_LOW, [1], ActionApproved, 0);
    var left := Parts(a, "p");
    assert "restart" + [NUL] + ("db" + [NUL] + "queue") == left[1] + [NUL] + left[2];
    JoinForgetsBoundary(left, 1, "restart", "db" + [NUL] + "queue");
    assert left[1 := "restart"][2 := "db" + [NUL] + "queue"] == Parts(b, "p");
    assert |a.target| == 5 && |b.target| == 8;
  }
}
