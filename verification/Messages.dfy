/** The control messages of the structure channel. */
module Messages {
  import opened Text
  import opened Session

  datatype HostProvenance = HostProvenance(os: OsKind, machineName: string, tailscaleAddr: string,
                                           captureDescription: string)

  datatype SurfaceAnnounce = SurfaceAnnounce(
    id: SurfaceId, name: string, width: u32, height: u32, codec: Codec, provenance: HostProvenance)

  datatype InputEvent =
    | KeyDown(keycode: u32) | KeyUp(keycode: u32)
    | MouseMove(x: real, y: real) | MouseDown(button: byte) | MouseUp(button: byte)
    | Scroll(dx: real, dy: real)

  datatype StructureMessage =
    // host to compositor
    | Announce(announce: SurfaceAnnounce)
    | SuspendAck
    | ReconnectOk(announce: SurfaceAnnounce)
    | ReconnectFail(reason: string)
    // compositor to host
    | Input(surfaceId: SurfaceId, event: InputEvent)
    | Resize(surfaceId: SurfaceId, width: u32, height: u32)
    | Suspend
    | Reconnect(sessionId: string)
    | Disconnect
}
