/**
 The status line's run-length form (eta.c): "RRR_" becomes "R(3),_(1)".
 */
module StatusString {
  import opened Common

  // A run: n copies of c.
  datatype Rle = Rle(c: char, n: nat)

  function Repeat(c: char, n: nat): (r: string)
    ensures |r| == n && forall i :: 0 <= i < n ==> r[i] == c
  {
    seq(n, _ => c)
  }

  function Expand(rs: seq<Rle>): string {
    if rs == [] then "" else Repeat(rs[0].c, rs[0].n) + Expand(rs[1..])
  }

  // No run is empty and no run could be longer.
  predicate Maximal(rs: seq<Rle>) {
    && (forall i :: 0 <= i < |rs| ==> rs[i].n >= 1)
    && (forall i :: 0 <= i < |rs| - 1 ==> rs[i].c != rs[i + 1].c)
  }

  function Digit(d: nat): char
    requires d < 10
  {
    '0' + d as char
  }

  // %u
  function Decimal(n: nat): string {
    if n < 10 then [Digit(n)] else Decimal(n / 10) + [Digit(n % 10)]
  }

  function Entry(x: Rle): string { [x.c] + "(" + Decimal(x.n) + ")" }

  function Text(rs: seq<Rle>): string {
    if rs == [] then "" else Entry(rs[0]) + if |rs| == 1 then "" else "," + Text(rs[1..])
  }

  // --- reading it back ---

  predicate IsDigit(c: char) { '0' <= c <= '9' }

  // The number at the head of t continuing acc, and what follows it.
  function Number(t: string, acc: nat): (nat, string) {
    if t != "" && IsDigit(t[0]) then Number(t[1..], 10 * acc + (t[0] - '0') as nat) else (acc, t)
  }

  lemma NumberShrinks(t: string, acc: nat)
    ensures |Number(t, acc).1| <= |t|
  {
  }

  function Decode(t: string): Option<string>
    decreases |t|
  {
    if t == "" then Some("")
    else if |t| < 2 || t[1] != '(' then None
    else
      var (n, rest) := Number(t[2..], 0);
      NumberShrinks(t[2..], 0);
      if rest == "" || rest[0] != ')' then None
      else if |rest| == 1 then Some(Repeat(t[0], n))
      else if rest[1] != ',' || |rest| == 2 then None
      else
        var more := Decode(rest[2..]);
        if more.None? then None else Some(Repeat(t[0], n) + more.value)
  }

  lemma {:induction false} NumberOfDecimal(n: nat, t: string)
    ensures Number(Decimal(n) + t, 0) == Number(t, n)
  {
    if n < 10 {
      assert ([Digit(n)] + t)[1..] == t;
    } else {
      var d := [Digit(n % 10)];
      NumberOfDecimal(n / 10, d + t);
      assert Decimal(n) + t == Decimal(n / 10) + (d + t);
      assert (d + t)[1..] == t;
    }
  }

  function Prepend(a: string, m: Option<string>): Option<string> { if m.None? then None else Some(a + m.value) }

  // One entry, once its number has been read.
  lemma DecodeStep(t: string, n: nat, rest: string)
    requires |t| >= 2 && t[1] == '(' && Number(t[2..], 0) == (n, ")" + rest)
    requires rest == "" || (|rest| > 1 && rest[0] == ',')
    ensures Decode(t) == if rest == "" then Some(Repeat(t[0], n)) else Prepend(Repeat(t[0], n), Decode(rest[1..]))
  {
    NumberShrinks(t[2..], 0);
    assert rest != "" ==> (")" + rest)[2..] == rest[1..];
  }

  lemma EntryText(c: char, d: string, rest: string)
    ensures var t := [c] + "(" + d + ")" + rest;
            |t| >= 2 && t[0] == c && t[1] == '(' && t[2..] == d + (")" + rest)
  {
  }

  lemma NumberOfEntry(n: nat, rest: string)
    ensures Number(Decimal(n) + (")" + rest), 0) == (n, ")" + rest)
  {
    NumberOfDecimal(n, ")" + rest);
  }

  lemma DecodeEntry(x: Rle, rest: string)
    requires rest == "" || (|rest| > 1 && rest[0] == ',')
    ensures Decode(Entry(x) + rest) == if rest == "" then Some(Repeat(x.c, x.n))
                                       else Prepend(Repeat(x.c, x.n), Decode(rest[1..]))
  {
    EntryText(x.c, Decimal(x.n), rest);
    NumberOfEntry(x.n, rest);
    DecodeStep(Entry(x) + rest, x.n, rest);
  }

  /** Reading the text of any list of runs gives the string it stands for. */
  lemma {:induction false} RoundTrip(rs: seq<Rle>)
    ensures Decode(Text(rs)) == Some(Expand(rs))
  {
    if rs != [] {
      var t := if |rs| == 1 then "" else "," + Text(rs[1..]);
      RoundTrip(rs[1..]);
      DecodeEntry(rs[0], t);
      if |rs| == 1 {
        assert Expand(rs) == Repeat(rs[0].c, rs[0].n) + "" == Repeat(rs[0].c, rs[0].n);
      } else {
        assert t[1..] == Text(rs[1..]);
      }
    }
  }

  // --- building it ---

  lemma {:induction false} TextSnoc(rs: seq<Rle>, x: Rle)
    requires rs != []
    ensures Text(rs + [x]) == Text(rs) + "," + Entry(x)
  {
    assert (rs + [x])[1..] == rs[1..] + [x];
    if |rs| > 1 {
      TextSnoc(rs[1..], x);
    } else {
      assert (rs + [x])[1..] == [x];
    }
  }

  lemma {:induction false} ExpandSnoc(rs: seq<Rle>, x: Rle)
    ensures Expand(rs + [x]) == Expand(rs) + Repeat(x.c, x.n)
  {
    if rs != [] {
      assert (rs + [x])[1..] == rs[1..] + [x];
      ExpandSnoc(rs[1..], x);
    } else {
      assert Expand([x][1..]) == "";
    }
  }

  // The inner loop: how far the run starting at `start` goes.
  method RunEnd(s: string, start: nat) returns (nr: nat, end: nat)
    requires start < |s|
    ensures start < end <= |s| && nr == end - start && s[start..end] == Repeat(s[start], nr)
    ensures s[end - 1] == s[start] && (end < |s| ==> s[end] != s[start])
  {
    nr, end := 1, start + 1;
    while end < |s| && s[end - 1] == s[end]
      invariant start < end <= |s| && nr == end - start
      invariant forall k :: start <= k < end ==> s[k] == s[start]
    {
      end := end + 1;
      nr := nr + 1;
    }
  }

  // The output so far, each entry followed by a comma.
  ghost function Pending(rs: seq<Rle>): string { if rs == [] then "" else Text(rs) + "," }

  lemma PendingSnoc(rs: seq<Rle>, x: Rle)
    ensures Pending(rs + [x]) == Pending(rs) + [x.c] + "(" + Decimal(x.n) + "),"
  {
    if rs != [] {
      TextSnoc(rs, x);
    }
    assert (rs + [x])[0] == if rs == [] then x else rs[0];
    assert [x][1..] == [];
  }

  lemma MaximalSnoc(rs: seq<Rle>, x: Rle)
    requires Maximal(rs) && x.n >= 1 && (rs != [] ==> rs[|rs| - 1].c != x.c)
    ensures Maximal(rs + [x])
  {
  }

  lemma TakeMore(s: string, i: nat, j: nat)
    requires i <= j <= |s|
    ensures s[..j] == s[..i] + s[i..j]
  {
  }

  /** update_condensed_str on a string without NUL: the text of its maximal runs,
      from which the string can be read back. */
  method Condense(s: string) returns (out: string, ghost rs: seq<Rle>)
    ensures Decode(out) == Some(s)
    ensures out == Text(rs) && Expand(rs) == s && Maximal(rs)
  {
    out, rs := "", [];
    var i := 0;
    if i < |s| {
      while i < |s|
        invariant 0 <= i <= |s| && Expand(rs) == s[..i] && Maximal(rs) && out == Pending(rs)
        invariant rs == [] <==> i == 0
        invariant 0 < i ==> rs[|rs| - 1].c == s[i - 1] && (i < |s| ==> s[i - 1] != s[i])
      {
        var nr, end := RunEnd(s, i);
        ghost var x := Rle(s[i], nr);
        PendingSnoc(rs, x);
        ExpandSnoc(rs, x);
        MaximalSnoc(rs, x);
        TakeMore(s, i, end);
        out := out + [s[i]] + "(" + Decimal(nr) + "),";
        rs := rs + [x];
        i := end;
      }
      out := out[..|out| - 1];
    }
    assert s[..i] == s;
    RoundTrip(rs);
  }

  // --- there is only one such list of runs ---

  lemma {:induction false} ExpandHead(rs: seq<Rle>)
    requires Maximal(rs) && rs != []
    ensures |Expand(rs)| >= rs[0].n && Expand(rs)[0] == rs[0].c
    ensures forall i :: 0 <= i < rs[0].n ==> Expand(rs)[i] == rs[0].c
    ensures |Expand(rs)| > rs[0].n <==> |rs| > 1
    ensures |rs| > 1 ==> Expand(rs)[rs[0].n] != rs[0].c
  {
    if |rs| > 1 {
      ExpandHead(rs[1..]);
      assert Expand(rs)[rs[0].n] == Expand(rs[1..])[0];
    } else {
      assert rs[1..] == [];
    }
  }

  /** The maximal runs of a string are determined by it. */
  lemma {:induction false} RunsUnique(a: seq<Rle>, b: seq<Rle>)
    requires Maximal(a) && Maximal(b) && Expand(a) == Expand(b)
    ensures a == b
  {
    if a != [] { ExpandHead(a); }
    if b != [] { ExpandHead(b); }
    if a != [] && b != [] {
      assert a[0] == b[0];
      assert Expand(a[1..]) == Expand(a)[a[0].n..] == Expand(b[1..]);
      RunsUnique(a[1..], b[1..]);
      assert a == [a[0]] + a[1..] && b == [b[0]] + b[1..];
    }
  }
}
