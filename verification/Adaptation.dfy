/** The receivers learn the chunk size from the first packet. Exactly when does their end-of-file test
    then say the same as the sender's, on every block? */
module Adaptation {
  import opened Packets
  import opened Chunking
  import opened StopAndWait
  import R = ReceiverMachines

  /** Agreement on every block comes down to the first block and to whether there is another. */
  lemma AgreementIff(file: seq<byte>, d: BlockSize, settled: int)
    ensures EofAgrees(Blocks(file, d), d, settled) <==> if |file| >= d then settled == d else settled != |file|
  {
    BlocksPartition(file, d);
    var bs := Blocks(file, d);
    if |file| >= d {
      assert |bs[0]| == d;
    } else {
      assert bs == [file];
    }
  }

  /** tftpd's `tget`, started with chunk size r0. */
  lemma ServerAdaptsIff(file: seq<byte>, d: BlockSize, r0: BlockSize)
    ensures var bs := Blocks(file, d);
      EofAgrees(bs, d, R.ServerAdapts(r0, 4 + |bs[0]|)) <==>
      if |file| >= d then d > 512 || d == r0 else |file| <= 512 && |file| != r0
  {
    var bs := Blocks(file, d);
    AgreementIff(file, d, R.ServerAdapts(r0, 4 + |bs[0]|));
  }

  /** tftpc's `tget`, started with chunk size r0. */
  lemma ClientAdaptsIff(file: seq<byte>, d: BlockSize, r0: BlockSize)
    ensures var bs := Blocks(file, d);
      EofAgrees(bs, d, R.ClientAdapts(r0, 4 + |bs[0]|)) <==>
      if |file| >= d then d > 512 || d == r0 == 512 else |file| < 512 || (|file| == 512 && r0 != 512)
  {
    var bs := Blocks(file, d);
    AgreementIff(file, d, R.ClientAdapts(r0, 4 + |bs[0]|));
  }

  /** A sender at 512..1024 against a receiver at the default 512: only files from 512 bytes up to less
      than one chunk go wrong. */
  lemma DefaultAdaptsIff(file: seq<byte>, d: BlockSize)
    requires 512 <= d
    ensures var bs := Blocks(file, d);
      && (EofAgrees(bs, d, R.ServerAdapts(512, 4 + |bs[0]|)) <==> |file| < 512 || |file| >= d)
      && (EofAgrees(bs, d, R.ClientAdapts(512, 4 + |bs[0]|)) <==> |file| < 512 || |file| >= d)
  {
    ServerAdaptsIff(file, d, 512);
    ClientAdaptsIff(file, d, 512);
  }
}
