/** The block device underneath the buffer cache: a sequence of equally sized
    blocks that changes one whole block at a time. */
module Disks {

  /** A block, seen as the 32-bit words it holds. */
  type Block = seq<int>

  type Disk = seq<Block>

  /** One completed `bwrite`. */
  datatype Write = Write(addr: int, data: Block)

  function Apply(d: Disk, w: Write): Disk {
    if 0 <= w.addr < |d| then d[w.addr := w.data] else d
  }

  /** The disk after the writes `ws`, in order. */
  function ApplyAll(d: Disk, ws: seq<Write>): Disk {
    if ws == [] then d else Apply(ApplyAll(d, ws[..|ws| - 1]), ws[|ws| - 1])
  }

  lemma ApplyOneMore(d: Disk, ws: seq<Write>, k: nat)
    requires k < |ws|
    ensures ApplyAll(d, ws[..k + 1]) == Apply(ApplyAll(d, ws[..k]), ws[k])
  {
    assert ws[..k + 1][..k] == ws[..k];
  }

  /** Disk `d` with write history `w` is `d0` with history `w0` after the first `k` writes of `ws`. */
  ghost predicate Issued(d0: Disk, w0: seq<Write>, ws: seq<Write>, k: nat, d: Disk, w: seq<Write>) {
    k <= |ws| && d == ApplyAll(d0, ws[..k]) && w == w0 + ws[..k]
  }

  lemma IssueOneMore(d0: Disk, w0: seq<Write>, ws: seq<Write>, k: nat, d: Disk, w: seq<Write>, x: Write)
    requires k < |ws| && Issued(d0, w0, ws, k, d, w) && ws[k] == x
    ensures Issued(d0, w0, ws, k + 1, Apply(d, x), w + [x])
  {
    ApplyOneMore(d0, ws, k);
  }

  lemma {:induction false} ApplyConcat(d: Disk, ws: seq<Write>, vs: seq<Write>)
    ensures ApplyAll(d, ws + vs) == ApplyAll(ApplyAll(d, ws), vs)
    decreases |vs|
  {
    if vs == [] {
      assert ws + vs == ws;
    } else {
      var n := |vs| - 1;
      assert (ws + vs)[..|ws + vs| - 1] == ws + vs[..n];
      ApplyConcat(d, ws, vs[..n]);
    }
  }

  lemma ApplyTail(d: Disk, ws: seq<Write>, w: Write)
    ensures ApplyAll(d, ws + [w]) == Apply(ApplyAll(d, ws), w)
  {
    ApplyOneMore(d, ws + [w], |ws|);
    assert (ws + [w])[..|ws|] == ws && (ws + [w])[..|ws| + 1] == ws + [w];
  }
}
