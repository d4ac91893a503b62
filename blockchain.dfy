/** The per-asset ownership ledger of `blockchain.js`: the serial-number
    denomination buckets, the simulated signature scheme, and `BanknoteChain`,
    an append-only list of blocks whose newest block names the current owner.

    The digest (`sha256`: SHA-256 of the text, rendered in base64) is not
    modelled; every member that hashes takes it as a parameter `digest`, an
    arbitrary total function on strings. Timestamps are parameters too. */
module Blockchain {
  import opened Seqs
  import opened Strings

  /** The hash function of the ledger: text in, base64 digest text out. */
  type Digest = string -> string

  /** The face values in serial order: one bucket per hundred serials. */
  const Faces: seq<nat> := [1, 5, 10, 20, 50]

  /** `getDenomination`: the face value of the note with this serial number;
      0 means "no denomination" for serials above 500. */
  function Denomination(serial: int): (d: nat)
    ensures d == 0 <==> serial > 500
    ensures d != 0 ==> d in Faces
  {
    if serial <= 100 then 1
    else if serial <= 200 then 5
    else if serial <= 300 then 10
    else if serial <= 400 then 20
    else if serial <= 500 then 50
    else 0
  }

  /** The buckets are the hundreds: serial `s` in 1..500 gets the face value of
      its hundred, and every serial up to 0 falls into the first bucket. */
  lemma DenominationByHundreds(serial: int)
    ensures serial <= 0 ==> Denomination(serial) == 1
    ensures 1 <= serial <= 500 ==> Denomination(serial) == Faces[(serial - 1) / 100]
  {
    if 1 <= serial <= 500 {
      var k := (serial - 1) / 100;
      assert 100 * k <= serial - 1 < 100 * k + 100;
      assert k == 0 || k == 1 || k == 2 || k == 3 || k == 4;
    }
  }

  /** Within the issued range, a higher serial never has a lower face value. */
  lemma DenominationMonotone(a: int, b: int)
    requires a <= b <= 500
    ensures Denomination(a) <= Denomination(b)
  {
  }

  /** `sign`: the simulated signature is the digest of the content followed by
      the private key. */
  function Sign(digest: Digest, content: string, privKey: string): string {
    digest(content + privKey)
  }

  /** `verify`: recomputes the signature with the private key; the public key
      is not consulted. */
  function Verify(digest: Digest, content: string, sig: string, pubKey: string, privKeyForSim: string): (ok: bool)
    ensures ok <==> sig == Sign(digest, content, privKeyForSim)
  {
    sig == digest(content + privKeyForSim)
  }

  /** Verification accepts exactly the signature `Sign` produces with the same
      private key, whatever public key is presented. */
  lemma VerifyAcceptsExactlySign(digest: Digest, content: string, sig: string, pubKey: string, privKey: string)
    ensures Verify(digest, content, sig, pubKey, privKey) <==> sig == Sign(digest, content, privKey)
  {
  }

  /** Sign/verify round trip. */
  lemma SignVerifyRoundTrip(digest: Digest, content: string, pubKey: string, privKey: string)
    ensures Verify(digest, content, Sign(digest, content, privKey), pubKey, privKey)
  {
  }

  /** A block of a note's chain. A genesis block carries its data and hash
      (the application also stores `parentIndex: -1`, which the ledger never
      reads); a transfer block also carries its signature and the owner at the
      time it was appended, which is absent when that owner line was missing. */
  datatype Block =
    | Genesis(data: string, hash: string)
    | Transfer(data: string, sig: string, hash: string, sender: Option<string>)

  /** `s.split('\n')[i]`, absent (`undefined`) when there is no such line. */
  function Line(s: string, i: nat): Option<string> {
    var lines := Split(s, '\n');
    if i < |lines| then Some(lines[i]) else None
  }

  /** The owner a block names: the third line of a genesis block, the first
      line of a transfer block. A transfer always names one: the text of its
      data up to the first newline. */
  function Owner(b: Block): (o: Option<string>)
    ensures b.Transfer? ==> o.Some? && '\n' !in o.value && o.value <= b.data
    ensures b.Transfer? && o.Some? && |o.value| < |b.data| ==> b.data[|o.value|] == '\n'
  {
    match b
    case Genesis(data, _) => Line(data, 2)
    case Transfer(data, _, _, _) =>
      JoinSplit(data, '\n');
      FirstLineIsPrefix(data);
      Line(data, 0)
  }

  lemma FirstLineIsPrefix(s: string)
    ensures var first := Split(s, '\n')[0];
      first <= s && (|first| < |s| ==> s[|first|] == '\n')
  {
    var lines := Split(s, '\n');
    JoinSplit(s, '\n');
    if |lines| > 1 {
      assert Join(lines, '\n') == lines[0] + ['\n'] + Join(lines[1..], '\n');
    }
  }

  /** The data layout of the genesis blocks the application issues
      ("GENESIS", the issuer line, then the issuer's public key). */
  function GenesisData(issuerPubKey: string): string {
    "GENESIS\nIssuer: AOB-Lab\n" + issuerPubKey
  }

  /** A freshly issued note is owned by its issuer. */
  lemma {:induction false} GenesisOwner(issuerPubKey: string, hash: string)
    requires '\n' !in issuerPubKey
    ensures Owner(Genesis(GenesisData(issuerPubKey), hash)) == Some(issuerPubKey)
  {
    var parts := ["GENESIS", "Issuer: AOB-Lab", issuerPubKey];
    JoinCons("Issuer: AOB-Lab", [issuerPubKey], '\n');
    JoinCons("GENESIS", ["Issuer: AOB-Lab", issuerPubKey], '\n');
    assert Join(parts, '\n') == GenesisData(issuerPubKey);
    SplitJoin(parts, '\n');
  }

  /** The signed part of a transfer: recipient, parent hash and timestamp,
      one per line. */
  function CoreData(recipient: string, prevHash: string, ts: string): string {
    recipient + "\n" + prevHash + "\n" + ts
  }

  /** The block `addTransferBlock` appends: the core data is signed with the
      sender's private key, the signature is appended as a `Sig: ` line, and
      the block hash is the digest of that whole text. */
  function NewTransfer(digest: Digest, privKey: string, recipient: string, prevHash: string,
                       ts: string, sender: Option<string>): Block
  {
    var core := CoreData(recipient, prevHash, ts);
    var sig := Sign(digest, core, privKey);
    var data := core + "\nSig: " + sig;
    Transfer(data, sig, digest(data), sender)
  }

  /** A transfer block is sealed: its signature verifies against its core
      data under the signing key (for any public key), its data is that core
      data followed by the signature line, and its hash is the digest of its
      data. */
  lemma TransferSealed(digest: Digest, privKey: string, recipient: string, prevHash: string,
                       ts: string, sender: Option<string>, pubKey: string)
    ensures var b := NewTransfer(digest, privKey, recipient, prevHash, ts, sender);
      && b.Transfer?
      && b.sender == sender
      && Verify(digest, CoreData(recipient, prevHash, ts), b.sig, pubKey, privKey)
      && b.data == CoreData(recipient, prevHash, ts) + "\nSig: " + b.sig
      && b.hash == digest(b.data)
  {
  }

  /** When no field contains a newline, the lines of a transfer's data are
      exactly recipient, parent hash, timestamp and signature line. */
  lemma TransferLines(digest: Digest, privKey: string, recipient: string, prevHash: string,
                      ts: string, sender: Option<string>)
    requires '\n' !in recipient && '\n' !in prevHash && '\n' !in ts
    requires '\n' !in Sign(digest, CoreData(recipient, prevHash, ts), privKey)
    ensures var b := NewTransfer(digest, privKey, recipient, prevHash, ts, sender);
      Split(b.data, '\n') == [recipient, prevHash, ts, "Sig: " + b.sig]
  {
    var b := NewTransfer(digest, privKey, recipient, prevHash, ts, sender);
    var parts := [recipient, prevHash, ts, "Sig: " + b.sig];
    JoinCons(ts, ["Sig: " + b.sig], '\n');
    JoinCons(prevHash, [ts, "Sig: " + b.sig], '\n');
    JoinCons(recipient, [prevHash, ts, "Sig: " + b.sig], '\n');
    assert Join(parts, '\n') == b.data;
    SplitJoin(parts, '\n');
  }

  /** The recipient owns the note after a transfer, whatever key signed it,
      provided the recipient key has no newline. */
  lemma TransferOwner(digest: Digest, privKey: string, recipient: string, prevHash: string,
                      ts: string, sender: Option<string>)
    requires '\n' !in recipient
    ensures Owner(NewTransfer(digest, privKey, recipient, prevHash, ts, sender)) == Some(recipient)
  {
    var b := NewTransfer(digest, privKey, recipient, prevHash, ts, sender);
    assert b.data == recipient + ['\n'] + (prevHash + "\n" + ts + "\nSig: " + b.sig);
    FirstPiece(recipient, '\n', prevHash + "\n" + ts + "\nSig: " + b.sig);
  }

  /** The parent hash is the second line of a transfer's data. */
  lemma TransferEmbedsParent(digest: Digest, privKey: string, recipient: string, prevHash: string,
                             ts: string, sender: Option<string>)
    requires '\n' !in recipient && '\n' !in prevHash
    ensures Line(NewTransfer(digest, privKey, recipient, prevHash, ts, sender).data, 1) == Some(prevHash)
  {
    var b := NewTransfer(digest, privKey, recipient, prevHash, ts, sender);
    var rest := ts + "\nSig: " + b.sig;
    assert b.data == recipient + ['\n'] + (prevHash + ['\n'] + rest);
    SplitAfterPiece(recipient, '\n', prevHash + ['\n'] + rest);
    SplitAfterPiece(prevHash, '\n', rest);
  }

  /** Every block after the first is a transfer recording, as its sender, the
      owner named by the block before it. */
  ghost predicate OwnershipTracked(blocks: seq<Block>) {
    forall i :: 1 <= i < |blocks| ==> blocks[i].Transfer? && blocks[i].sender == Owner(blocks[i - 1])
  }

  /** Every block after the first is a transfer whose hash is the digest of
      its data and whose second line is the hash of the block before it. */
  ghost predicate HashLinked(digest: Digest, blocks: seq<Block>) {
    forall i :: 1 <= i < |blocks| ==>
      && blocks[i].Transfer?
      && blocks[i].hash == digest(blocks[i].data)
      && Line(blocks[i].data, 1) == Some(blocks[i - 1].hash)
  }

  /** Appending a transfer that extends the tip keeps the chain hash-linked. */
  lemma AppendKeepsLinked(digest: Digest, blocks: seq<Block>, privKey: string, recipient: string,
                          ts: string, sender: Option<string>)
    requires |blocks| >= 1 && HashLinked(digest, blocks)
    requires '\n' !in recipient && '\n' !in blocks[|blocks| - 1].hash
    ensures HashLinked(digest, blocks + [NewTransfer(digest, privKey, recipient, blocks[|blocks| - 1].hash, ts, sender)])
  {
    TransferEmbedsParent(digest, privKey, recipient, blocks[|blocks| - 1].hash, ts, sender);
  }

  /** With a digest that never yields a newline (base64 text has none), the
      tip of a chain past its genesis block always has a newline-free hash,
      so any transfer to a newline-free key keeps the chain hash-linked. */
  lemma AppendKeepsLinkedUnderBase64(digest: Digest, blocks: seq<Block>, privKey: string, recipient: string,
                                     ts: string, sender: Option<string>)
    requires forall s :: '\n' !in digest(s)
    requires |blocks| >= 2 && HashLinked(digest, blocks)
    requires '\n' !in recipient
    ensures HashLinked(digest, blocks + [NewTransfer(digest, privKey, recipient, blocks[|blocks| - 1].hash, ts, sender)])
  {
    var tip := blocks[|blocks| - 1];
    assert tip.hash == digest(tip.data);
    AppendKeepsLinked(digest, blocks, privKey, recipient, ts, sender);
  }

  /** `BanknoteChain`: one note's ledger. */
  class BanknoteChain {
    const serial: int
    const denomination: nat
    var blocks: seq<Block>

    ghost predicate Valid()
      reads this
    {
      |blocks| >= 1 && denomination == Denomination(serial) && OwnershipTracked(blocks)
    }

    /** A new chain holds just the genesis block it is given. */
    constructor (serial: int, genesisBlock: Block)
      ensures Valid()
      ensures this.serial == serial && denomination == Denomination(serial)
      ensures blocks == [genesisBlock]
    {
      this.serial := serial;
      blocks := [genesisBlock];
      denomination := Denomination(serial);
    }

    /** `currentOwner`: the owner the newest block names. */
    function CurrentOwner(): (o: Option<string>)
      reads this
      requires |blocks| >= 1
      ensures blocks[|blocks| - 1].Transfer? ==> o.Some? && '\n' !in o.value
    {
      Owner(blocks[|blocks| - 1])
    }

    /** `lastHash`: the hash of the newest block. */
    function LastHash(): string
      reads this
      requires |blocks| >= 1
    {
      blocks[|blocks| - 1].hash
    }

    /** `addTransferBlock`: appends a transfer to `recipientPubKey` on top of
        the current tip, signed with `senderPrivKey` and stamped with `ts`. No
        check ties the key to the current owner. */
    method AddTransferBlock(digest: Digest, senderPrivKey: string, recipientPubKey: string, ts: string)
      returns (b: Block)
      requires Valid()
      modifies this
      ensures Valid()
      ensures b == NewTransfer(digest, senderPrivKey, recipientPubKey, old(LastHash()), ts, old(CurrentOwner()))
      ensures blocks == old(blocks) + [b]
      ensures '\n' !in recipientPubKey ==> CurrentOwner() == Some(recipientPubKey)
      ensures HashLinked(digest, old(blocks)) && '\n' !in recipientPubKey && '\n' !in old(LastHash())
        ==> HashLinked(digest, blocks)
    {
      var prevHash := LastHash();
      var core := CoreData(recipientPubKey, prevHash, ts);
      var sig := Sign(digest, core, senderPrivKey);
      var finalData := core + "\nSig: " + sig;
      var hash := digest(finalData);
      var sender := CurrentOwner();
      b := Transfer(finalData, sig, hash, sender);
      ghost var before := blocks;
      assert b == NewTransfer(digest, senderPrivKey, recipientPubKey, prevHash, ts, sender);
      if '\n' !in recipientPubKey {
        TransferOwner(digest, senderPrivKey, recipientPubKey, prevHash, ts, sender);
      }
      if HashLinked(digest, before) && '\n' !in recipientPubKey && '\n' !in prevHash {
        AppendKeepsLinked(digest, before, senderPrivKey, recipientPubKey, ts, sender);
      }
      blocks := blocks + [b];
    }
  }
}
