// The libbfio file IO handle the library reads from, reduced to what the
// library observes: the bytes of the source, whether the handle is open,
// and whether opening it can succeed.

module FileIo {
  import opened Common

  class FileIoHandle {
    /** The bytes of the volume image behind the handle. */
    const bytes: seq<uint8>
    /** Whether libbfio_handle_open succeeds on this handle. */
    const openable: bool
    var isOpen: bool

    constructor (bytes: seq<uint8>, openable: bool, isOpen: bool)
      ensures this.bytes == bytes && this.openable == openable && this.isOpen == isOpen
    {
      this.bytes := bytes;
      this.openable := openable;
      this.isOpen := isOpen;
    }

    /** libbfio_handle_open. */
    method Open() returns (r: Result<()>)
      modifies this
      ensures r.Ok? <==> openable
      ensures r.Err? ==> r.error == Error(Io, OpenFailed)
      ensures isOpen == (old(isOpen) || openable)
    {
      if openable {
        isOpen := true;
        r := Ok(());
      } else {
        r := Err(Error(Io, OpenFailed));
      }
    }

    /** libbfio_handle_close. */
    method Close()
      modifies this
      ensures !isOpen
    {
      isOpen := false;
    }
  }

  /** libbfio_handle_read_buffer_at_offset on an open handle: a negative
      offset cannot be sought to; otherwise the bytes from `offset` up to
      `count` of them or the end of the data, whichever comes first. */
  function ReadAt(bytes: seq<uint8>, offset: int, count: nat): (r: Result<seq<uint8>>)
    ensures offset < 0 <==> r.Err?
    ensures r.Err? ==> r.error == Error(Io, SeekFailed)
    ensures r.Ok? ==> |r.value| <= count
    ensures r.Ok? && offset + count <= |bytes| ==> r.value == bytes[offset..offset + count]
    ensures r.Ok? && offset + count > |bytes| ==>
              r.value == if offset < |bytes| then bytes[offset..] else []
  {
    if offset < 0 then Err(Error(Io, SeekFailed))
    else if offset >= |bytes| then Ok([])
    else if offset + count <= |bytes| then Ok(bytes[offset..offset + count])
    else Ok(bytes[offset..])
  }
}
