/**
 Loading a component: the loader module is chosen by the URI scheme, and what it
 prints is drained from two pipes (core/comp_load.c).
 */
module CompLoad {
  import opened CText
  import Uri

  const BUFFER_SIZE := 512

  /** The read end of a pipe: all the child will ever write, and how much of it was
      read; after a read error the pipe is broken. */
  class Pipe {
    const text: string
    var taken: nat
    var broken: bool

    ghost predicate Valid()
      reads this
    {
      taken <= |text|
    }

    constructor (text: string)
      ensures Valid() && this.text == text && taken == 0 && !broken
    {
      this.text := text;
      taken, broken := 0, false;
    }

    /** read(): some bytes, or 0 at the end, or -1; which, is up to the system. */
    method Read(max: nat) returns (count: int)
      requires Valid() && max > 0
      modifies this
      ensures Valid() && -1 <= count <= max
      ensures count >= 0 ==>
                taken == old(taken) + count && (count == 0 <==> old(taken) == |text|) && broken == old(broken)
      ensures count == -1 ==> taken == old(taken) && broken
    {
      if * {
        broken := true;
        return -1;
      }
      if taken == |text| {
        return 0;
      }
      count :| 0 < count <= max && taken + count <= |text|;
      taken := taken + count;
    }
  }

  /** The text collected from a pipe so far. */
  ghost predicate Collected(p: Pipe, str: string)
    reads p
  {
    p.Valid() && (NulFree(p.text[..p.taken]) ==> str == p.text[..p.taken])
  }

  /** All output was collected, or up to a read error a part of it from the start. */
  ghost predicate Drained(p: Pipe, str: string)
    reads p
  {
    NulFree(p.text) ==> str <= p.text && (!p.broken ==> str == p.text)
  }

  /** read_to_string() */
  method ReadToString(p: Pipe, str: string) returns (r: int, s: string)
    requires Collected(p, str)
    modifies p
    ensures Collected(p, s) && p.taken >= old(p.taken)
    ensures if r == 0 then p.taken > old(p.taken) else r == -1 && (p.broken || p.taken == |p.text|)
    ensures old(p.broken) ==> p.broken
  {
    ghost var taken := p.taken;
    var err := p.Read(BUFFER_SIZE - 1);
    if err > 0 {
      NextPiece(p.text, taken, err, str);
      return 0, str + CString(p.text[p.taken - err..p.taken]);
    }
    return -1, str;
  }

  /** The two-pipe loop of comp_load(): whatever select() and read() answer, it ends,
      and the complete output of both pipes was collected. */
  method Drain(stdout: Pipe, stderr: Pipe) returns (info: string, errmsg: string)
    requires stdout != stderr && stdout.Valid() && stderr.Valid() && stdout.taken == 0 && stderr.taken == 0
    modifies stdout, stderr
    ensures Drained(stdout, info) && Drained(stderr, errmsg)
  {
    info, errmsg := "", "";
    var outDone, errDone := false, false;
    while !outDone || !errDone
      invariant Collected(stdout, info) && Collected(stderr, errmsg)
      invariant outDone ==> stdout.broken || stdout.taken == |stdout.text|
      invariant errDone ==> stderr.broken || stderr.taken == |stderr.text|
      decreases |stdout.text| - stdout.taken + |stderr.text| - stderr.taken
                + (if outDone then 0 else 1) + (if errDone then 0 else 1)
    {
      // select() on the descriptors that are still of interest
      var outReady: bool, errReady: bool :| (outReady ==> !outDone) && (errReady ==> !errDone)
          && (outReady || errReady);
      var r;
      if outReady {
        r, info := ReadToString(stdout, info);
        if r != 0 {
          outDone := true;
        }
      }
      if errReady {
        r, errmsg := ReadToString(stderr, errmsg);
        if r != 0 {
          errDone := true;
        }
      }
    }
    WholeText(stdout, info);
    WholeText(stderr, errmsg);
  }

  lemma WholeText(p: Pipe, str: string)
    requires Collected(p, str) && (p.broken || p.taken == |p.text|)
    ensures Drained(p, str)
  {
    if NulFree(p.text) {
      assert NulFree(p.text[..p.taken]);
      assert p.taken == |p.text| ==> p.text[..p.taken] == p.text;
    }
  }

  /** What is known after a load: the loader module that was chosen, or none. */
  method CompLoad(uri: string, stdout: Pipe, stderr: Pipe, exitedOk: bool)
    returns (ret: int, scheme: string, info: string, errmsg: string)
    requires stdout != stderr && stdout.Valid() && stderr.Valid() && stdout.taken == 0 && stderr.taken == 0
    modifies stdout, stderr
    ensures !Uri.HasScheme(uri) ==> ret == -1 && scheme == "" && info == "" && errmsg == "Invalid URI scheme."
    ensures !Uri.HasScheme(uri) ==> stdout.taken == 0 && stderr.taken == 0
    ensures Uri.HasScheme(uri) ==> Uri.IsScheme(scheme) && scheme + ":" <= uri && (ret == 0 <==> exitedOk)
    ensures Uri.HasScheme(uri) ==> Drained(stdout, info) && Drained(stderr, errmsg)
  {
    var r := Uri.VerifyUriScheme(uri);
    if r != 0 {
      return -1, "", "", "Invalid URI scheme.";
    }
    var colon := Uri.FindColon(uri);
    assert ':' in uri && Uri.IsScheme(uri[..colon]) by {
      var n :| 0 <= n < |uri| && uri[n] == ':' && Uri.IsScheme(uri[..n]);
      Uri.SchemeEndsAtColon(uri, n, colon);
    }
    scheme := uri[..colon];
    assert scheme + ":" == uri[..colon + 1];
    info, errmsg := Drain(stdout, stderr);
    ret := if exitedOk then 0 else -1;
  }
}
