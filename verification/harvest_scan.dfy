/** Finding addresses in a header line: where the harvester cuts the line up
    (src/addrharvest.c:416-474, 538-563, 597). */
module HarvestScan {
  import opened Items

  const BufferSize: nat := 1024

  /** `strchr( chars, c )` finds something: the string's terminator counts. */
  predicate Strchr(chars: string, c: char) {
    c in chars || c == '\0'
  }

  /** A string of C: the terminator is only at the end. */
  predicate CString(s: string) {
    '\0' !in s
  }

  // ---------- the at sign ----------

  /** The first `@` from `p` on. */
  function FirstAt(s: string, p: nat): (r: Option<nat>)
    ensures r.None? ==> forall i | p <= i < |s| :: s[i] != '@'
    ensures r.Some? ==> p <= r.value < |s| && s[r.value] == '@' && forall i | p <= i < r.value :: s[i] != '@'
    decreases |s| - p
  {
    if p >= |s| then None else if s[p] == '@' then Some(p) else FirstAt(s, p + 1)
  }

  predicate StopsSearch(c: char) { c == '>' || c == ',' || c == '\n' || c == '@' }

  /** Where a second `@` or the end of the address stops the search. */
  function SecondStop(s: string, p: nat): (r: nat)
    requires p <= |s|
    ensures p <= r <= |s| && (r < |s| ==> StopsSearch(s[r])) && forall i | p <= i < r :: !StopsSearch(s[i])
    decreases |s| - p
  {
    if p == |s| || StopsSearch(s[p]) then p else SecondStop(s, p + 1)
  }

  function FindAt(s: string, buffer: nat): Option<nat> {
    var first := FirstAt(s, buffer);
    if first.None? then None
    else
      var stop := SecondStop(s, first.value + 1);
      if stop < |s| && s[stop] == '@' then Some(stop) else first
  }

  /** Of the `@` found: it is the first one, `first`, unless the next one follows without any of `>`, `,`
      and a new line in between; then it is that one. */
  lemma AtSignMeans(s: string, buffer: nat) returns (first: nat)
    requires buffer <= |s|
    ensures FindAt(s, buffer).None? <==> forall i | buffer <= i < |s| :: s[i] != '@'
    ensures FindAt(s, buffer).Some? ==> var at := FindAt(s, buffer).value;
      && buffer <= first <= at < |s| && s[first] == s[at] == '@' && (forall i | buffer <= i < first :: s[i] != '@')
      && (forall i | first < i < at :: s[i] !in {'>', ',', '\n', '@'})
      && (at == first ==> forall q | first < q < |s| && s[q] == '@' ::
            exists i :: first < i < q && s[i] in {'>', ',', '\n'})
  {
    first := 0;
    var a := FirstAt(s, buffer);
    if a.Some? {
      first := a.value;
      var stop := SecondStop(s, first + 1);
      if FindAt(s, buffer) == Some(first) {
        forall q | first < q < |s| && s[q] == '@'
          ensures exists i :: first < i < q && s[i] in {'>', ',', '\n'}
        {
          assert StopsSearch(s[q]) && stop <= q;
          assert s[stop] != '@' && StopsSearch(s[stop]);
        }
      }
    }
  }

  /** `addrharvest_find_at`: the first `@`, or the second if nothing ends the address in between. */
  method FindAtSign(s: string, buffer: nat) returns (atCh: Option<nat>)
    requires CString(s) && buffer <= |s|
    ensures atCh == FindAt(s, buffer)
  {
    var p := buffer;
    while CharAt(s, p) != '\0' && s[p] != '@'
      invariant buffer <= p <= |s| && FirstAt(s, p) == FirstAt(s, buffer)
      decreases |s| - p
    {
      p := p + 1;
    }
    if CharAt(s, p) == '\0' {
      return None;
    }
    atCh := Some(p);
    p := p + 1;
    ghost var q := p;
    while CharAt(s, p) != '\0'
      invariant q <= p <= |s| && SecondStop(s, p) == SecondStop(s, q) && atCh == FirstAt(s, buffer)
      decreases |s| - p
    {
      if s[p] == '>' || s[p] == ',' || s[p] == '\n' {
        break;
      }
      if s[p] == '@' {
        atCh := Some(p);
        break;
      }
      p := p + 1;
    }
  }

  // ---------- the slice around it ----------

  predicate Separator(c: char) { Strchr(",; \n\r", c) }

  predicate Delimiter(c: char) { Strchr(",;", c) }

  /** The first character from `p` on that is no separator; there is one before `at`. */
  function SkipSeparators(s: string, p: nat, at: nat): (bp: nat)
    requires CString(s) && p <= at < |s| && s[at] == '@'
    ensures p <= bp <= at && !Separator(s[bp]) && forall i | p <= i < bp :: Separator(s[i])
    decreases at - p
  {
    if !Separator(s[p]) then p else SkipSeparators(s, p + 1, at)
  }

  /** The next delimiter, or the terminator. */
  function NextDelimiter(s: string, p: nat): (ep: nat)
    requires CString(s) && p <= |s|
    ensures p <= ep <= |s| && Delimiter(CharAt(s, ep)) && forall i | p <= i < ep :: !Delimiter(s[i])
    decreases |s| - p
  {
    if Delimiter(CharAt(s, p)) then p else NextDelimiter(s, p + 1)
  }

  /** `addrharvest_find_address`.  Neither loop looks for the terminator itself: the first stops at
      the `@` at the latest, and the second because `strchr` finds the terminator. */
  method FindAddress(s: string, buf: nat, atp: nat) returns (bp: nat, ep: nat)
    requires CString(s) && buf <= atp < |s| && s[atp] == '@'
    ensures bp == SkipSeparators(s, buf, atp) && ep == NextDelimiter(s, atp + 1)
    ensures buf <= bp <= atp < ep <= |s|
    ensures s[bp] !in {',', ';', ' ', '\n', '\r'} && forall i | buf <= i < bp :: s[i] in {',', ';', ' ', '\n', '\r'}
    ensures (ep < |s| ==> s[ep] in {',', ';'}) && forall i | atp < i < ep :: s[i] !in {',', ';'}
  {
    var p := buf;
    while Separator(CharAt(s, p))
      invariant buf <= p <= atp && SkipSeparators(s, p, atp) == SkipSeparators(s, buf, atp)
      decreases atp - p
    {
      p := p + 1;
    }
    bp := p;
    p := atp + 1;
    while !Delimiter(CharAt(s, p))
      invariant atp + 1 <= p <= |s| && NextDelimiter(s, p) == NextDelimiter(s, atp + 1)
      decreases |s| - p
    {
      p := p + 1;
    }
    ep := p;
  }

  // ---------- all slices ----------

  /** A part of the line: from `bp` up to `ep`. */
  datatype Slice = Slice(bp: nat, ep: nat)

  /** The slices from `hdrBuf` on. */
  function Slices(s: string, hdrBuf: nat): seq<Slice>
    requires CString(s) && hdrBuf <= |s|
    decreases |s| - hdrBuf
  {
    var at := FindAt(s, hdrBuf);
    if at.None? then []
    else
      var bp, ep := SkipSeparators(s, hdrBuf, at.value), NextDelimiter(s, at.value + 1);
      [Slice(bp, ep)] + Slices(s, ep)
  }

  /** A slice inside the line, not before `from`, with an `@` in it. */
  predicate SliceOk(s: string, from: nat, sl: Slice) {
    from <= sl.bp < sl.ep <= |s| && '@' in s[sl.bp..sl.ep]
  }

  predicate InSome(p: nat, sls: seq<Slice>) {
    exists i :: 0 <= i < |sls| && sls[i].bp <= p < sls[i].ep
  }

  lemma FirstSlice(s: string, hdrBuf: nat)
    requires CString(s) && hdrBuf <= |s| && FindAt(s, hdrBuf).Some?
    ensures var at := FindAt(s, hdrBuf).value; hdrBuf <= at < |s| && s[at] == '@'
    ensures var at := FindAt(s, hdrBuf).value; var bp, ep := SkipSeparators(s, hdrBuf, at), NextDelimiter(s, at + 1);
      && SliceOk(s, hdrBuf, Slice(bp, ep)) && ep <= |s| && Slices(s, hdrBuf) == [Slice(bp, ep)] + Slices(s, ep)
        && hdrBuf < ep
      && forall p | hdrBuf <= p < ep && s[p] == '@' :: bp <= p
  {
    var at := FindAt(s, hdrBuf).value;
    var bp, ep := SkipSeparators(s, hdrBuf, at), NextDelimiter(s, at + 1);
    assert s[bp..ep][at - bp] == '@';
  }

  ghost predicate AllOk(s: string, from: nat, sls: seq<Slice>) {
    forall i | 0 <= i < |sls| :: SliceOk(s, from, sls[i])
  }

  ghost predicate LeftToRight(sls: seq<Slice>) {
    forall i, j | 0 <= i < j < |sls| :: sls[i].ep <= sls[j].bp
  }

  ghost predicate Covered(s: string, from: nat, sls: seq<Slice>) {
    forall p | from <= p < |s| && s[p] == '@' :: InSome(p, sls)
  }

  lemma OneMoreSlice(s: string, from: nat, x: Slice, rest: seq<Slice>)
    requires SliceOk(s, from, x) && AllOk(s, x.ep, rest) && LeftToRight(rest)
    ensures AllOk(s, from, [x] + rest) && LeftToRight([x] + rest)
  {
    var sl := [x] + rest;
    forall i | 0 <= i < |sl|
      ensures SliceOk(s, from, sl[i])
    {
      assert i > 0 ==> sl[i] == rest[i - 1] && SliceOk(s, x.ep, rest[i - 1]);
    }
    forall i, j | 0 <= i < j < |sl|
      ensures sl[i].ep <= sl[j].bp
    {
      assert sl[j] == rest[j - 1] && SliceOk(s, x.ep, rest[j - 1]);
      assert i > 0 ==> sl[i] == rest[i - 1];
    }
  }

  lemma OneMoreCovered(s: string, from: nat, x: Slice, rest: seq<Slice>)
    requires x.ep <= |s| && Covered(s, x.ep, rest) && forall p | from <= p < x.ep && s[p] == '@' :: x.bp <= p
    ensures Covered(s, from, [x] + rest)
  {
    var sl := [x] + rest;
    forall p | from <= p < |s| && s[p] == '@'
      ensures InSome(p, sl)
    {
      if p < x.ep {
        assert sl[0].bp <= p < sl[0].ep;
      } else {
        assert InSome(p, rest);
        var i :| 0 <= i < |rest| && rest[i].bp <= p < rest[i].ep;
        assert sl[i + 1] == rest[i];
      }
    }
  }

  /** The slices lie one after the other, each with an `@` in it, and no `@` lies outside them. */
  lemma {:induction false} SlicesCover(s: string, hdrBuf: nat)
    requires CString(s) && hdrBuf <= |s|
    ensures AllOk(s, hdrBuf, Slices(s, hdrBuf)) && LeftToRight(Slices(s, hdrBuf))
      && Covered(s, hdrBuf, Slices(s, hdrBuf))
    decreases |s| - hdrBuf
  {
    hide AllOk, LeftToRight, Covered, FindAt, InSome, SliceOk;
    var at := FindAt(s, hdrBuf);
    if at.Some? {
      FirstSlice(s, hdrBuf);
      var bp, ep := SkipSeparators(s, hdrBuf, at.value), NextDelimiter(s, at.value + 1);
      SlicesCover(s, ep);
      OneMoreSlice(s, hdrBuf, Slice(bp, ep), Slices(s, ep));
      OneMoreCovered(s, hdrBuf, Slice(bp, ep), Slices(s, ep));
    } else {
      NoAtLeft(s, hdrBuf);
    }
  }

  lemma NoAtLeft(s: string, hdrBuf: nat)
    requires FindAt(s, hdrBuf).None?
    ensures AllOk(s, hdrBuf, []) && LeftToRight([]) && Covered(s, hdrBuf, [])
  {
  }

  /** What is copied of a slice. */
  function Copied(s: string, sl: Slice): string
    requires sl.bp <= sl.ep <= |s|
  {
    s[sl.bp..if sl.ep - sl.bp > BufferSize - 1 then sl.bp + BufferSize - 1 else sl.ep]
  }

  /** A slice of up to 1023 characters is copied whole, and of a longer one the first 1023. */
  lemma CopiedMeans(s: string, sl: Slice)
    requires sl.bp <= sl.ep <= |s|
    ensures Copied(s, sl) == s[sl.bp..if sl.ep - sl.bp <= 1023 then sl.ep else sl.bp + 1023]
  {
  }

  /** The copying: the three terminators behind the text stay inside the buffer of two more than
      its nominal size. */
  method CopySlice(s: string, bp: nat, ep: nat, buffer: array<char>) returns (bufLen: nat)
    requires bp <= ep <= |s| && buffer.Length == BufferSize + 2
    modifies buffer
    ensures bufLen == |Copied(s, Slice(bp, ep))| && bufLen + 2 < buffer.Length
    ensures buffer[..bufLen] == Copied(s, Slice(bp, ep))
    ensures buffer[bufLen] == buffer[bufLen + 1] == buffer[bufLen + 2] == '\0'
  {
    bufLen := ep - bp;
    if bufLen > BufferSize - 1 {
      bufLen := BufferSize - 1;
    }
    var i := 0;
    while i < bufLen
      invariant 0 <= i <= bufLen
      invariant forall j | 0 <= j < i :: buffer[j] == s[bp + j]
    {
      buffer[i] := s[bp + i];
      i := i + 1;
    }
    buffer[bufLen] := '\0';
    buffer[bufLen + 1] := '\0';
    buffer[bufLen + 2] := '\0';
  }
}
