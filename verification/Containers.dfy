/** The plain records that blocks, attestations and consensus states are made of. */
module Containers {

  datatype Option<+T> = None | Some(value: T)

  datatype Result<+T, +E> = Ok(value: T) | Err(error: E)

  /** A 32-byte root, read as a big-endian number, so that comparing byte arrays
      lexicographically is comparing numbers. */
  type Root = nat

  /** The all-zero root: "no block here". */
  const ZERO: Root := 0

  const VALIDATOR_REGISTRY_LIMIT: nat := 4_096

  type Byte = bv8

  /** A bit list: `len` bits stored eight to a byte, lowest bit first. */
  datatype BitList = BitList(data: seq<Byte>, len: nat)

  datatype Checkpoint = Checkpoint(root: Root, slot: nat)

  datatype AttestationData =
    AttestationData(slot: nat, head: Checkpoint, target: Checkpoint, source: Checkpoint)

  datatype Attestation = Attestation(bits: BitList, data: AttestationData)

  datatype BlockHeader =
    BlockHeader(slot: nat, proposerIndex: nat, parentRoot: Root, stateRoot: Root, bodyRoot: Root)

  datatype Block =
    Block(slot: nat, proposerIndex: nat, parentRoot: Root, stateRoot: Root, attestations: seq<Attestation>)

  datatype Validator = Validator(pubkey: nat, index: nat)

  /** An aggregate signature together with the participants it covers. */
  datatype Proof = Proof(participants: BitList, data: seq<Byte>)

  datatype SignedBlock =
    SignedBlock(block: Block, proposerAttestation: Attestation, proofs: seq<Proof>, proposerSignature: seq<Byte>)

  /** A consensus state as a value: bit lists appear as the bits they denote, which
      is what equality and hashing see. */
  datatype StateValue = StateValue(
    genesisTime: nat,
    slot: nat,
    header: BlockHeader,
    justified: Checkpoint,
    finalized: Checkpoint,
    history: seq<Root>,
    justifiedSlots: seq<bool>,
    validators: seq<Validator>,
    voteRoots: seq<Root>,
    voteBits: seq<bool>)

  /** The Merkle hashes the client computes, left uninterpreted. */
  datatype Hashes = Hashes(
    header: BlockHeader -> Root,
    body: seq<Attestation> -> Root,
    state: StateValue -> Root,
    data: AttestationData -> Root)

  /** Headers do not collide and none hashes to zero. */
  ghost predicate SoundHeaders(h: Hashes) {
    && (forall a, b :: h.header(a) == h.header(b) ==> a == b)
    && (forall a :: h.header(a) != ZERO)
  }

  /** The header of a block; the block's own root is the hash of this header. */
  function HeaderOf(h: Hashes, b: Block): BlockHeader {
    BlockHeader(b.slot, b.proposerIndex, b.parentRoot, b.stateRoot, h.body(b.attestations))
  }

  function BlockRoot(h: Hashes, b: Block): Root {
    h.header(HeaderOf(h, b))
  }

  /** A block root stands for one block only, body and state root included, when headers and
      bodies do not collide. */
  lemma BlockRootBinds(h: Hashes, a: Block, b: Block)
    requires SoundHeaders(h) && (forall x, y :: h.body(x) == h.body(y) ==> x == y)
    requires BlockRoot(h, a) == BlockRoot(h, b)
    ensures a == b
  {
    assert HeaderOf(h, a) == HeaderOf(h, b);
  }
}
