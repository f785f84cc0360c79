/** The configuration calls of max35103.c in their own form. */
module Max35103Object {
  import opened Bits
  import opened StorageRecord
  import Spec = Max35103Profile
  import opened Max35103Profile

  class Max35103 {
    var host: Host
    var device: Device

    method WriteFrame(opcode: uint8, value: uint16) returns (ok: bool)
      requires |device.registers| == REGISTER_COUNT
      modifies this`device
      ensures (device, ok) == SpiWrite(old(device), opcode, value)
    {
      var (e, written) := SpiWrite(device, opcode, value);
      device, ok := e, written;
    }

    method ReadBackFrame(opcode: uint8, control: uint16) returns (ok: bool, value: uint16)
      requires |device.registers| == REGISTER_COUNT
      modifies this`device
      ensures (device, ok, value) == SpiReadBack(old(device), opcode, control)
    {
      var (e, read, back) := SpiReadBack(device, opcode, control);
      device, ok, value := e, read, back;
    }

    /** MAX35103_Configure. */
    method Configure(candidate: Profile) returns (status: Status)
      requires |device.registers| == REGISTER_COUNT
      modifies this
      ensures (host, device, status) == Spec.Configure(old(host), old(device), candidate)
    {
      hide IsValid;
      var valid := ValidateProfile(candidate);
      if !valid {
        return ConfigError;
      }
      if !host.deviceReady {
        return NotReady;
      }
      if host.state != HostIdle || host.eventTimingActive || host.spiPending {
        return Busy;
      }
      var entries := Entries(candidate);
      host := host.(configured := false, synchronized := false);
      var i := 0;
      while i < |entries|
        invariant 0 <= i <= |entries| && |device.registers| == REGISTER_COUNT && host == Invalidated(old(host))
        invariant WriteEntries(device, entries, i) == WriteEntries(old(device), entries, 0)
      {
        var written := WriteFrame(entries[i].0, entries[i].1);
        if !written {
          host := InError(host);
          return SpiError;
        }
        var read, back := ReadBackFrame(entries[i].0, 0);
        if !read {
          host := InError(host);
          return SpiError;
        }
        if back != entries[i].1 {
          host := InError(host);
          return ConfigError;
        }
        i := i + 1;
      }
      host := host.(active := candidate, configured := true, synchronized := true);
      return Ok;
    }

    /** MAX35103_WriteReg. */
    method WriteReg(opcode: uint8, value: uint16) returns (status: Status)
      requires |device.registers| == REGISTER_COUNT
      modifies this
      ensures (host, device, status) == Spec.WriteReg(old(host), old(device), opcode, value)
    {
      hide IsValid;
      status := Refuse(opcode, value);
      if status != Ok {
        return;
      }
      var written := WriteFrame(opcode, value);
      if IsConfigurationWrite(opcode) {
        host := host.(configured := false, synchronized := false);
      }
      return if written then Ok else SpiError;
    }

    /** The guards both direct writes begin with. */
    method Refuse(opcode: uint8, value: uint16) returns (status: Status)
      ensures status == match WriteRefusal(host, opcode, value) case Some(s) => s case None => Ok
    {
      hide IsValid;
      if !IsWriteOpcode(opcode) {
        return InvalidArg;
      }
      if !host.deviceReady {
        return NotReady;
      }
      if host.state != HostIdle || host.eventTimingActive || host.spiPending {
        return Busy;
      }
      if !DirectWriteOk(opcode, value) {
        return ConfigError;
      }
      if host.configured && host.synchronized {
        var candidate := Updated(host.active, opcode, value);
        if candidate.Some? {
          var valid := ValidateProfile(candidate.value);
          if !valid {
            return ConfigError;
          }
        }
      }
      return Ok;
    }

    /** MAX35103_WriteVerifyReg. */
    method WriteVerifyReg(opcode: uint8, value: uint16, control: uint16) returns (status: Status)
      requires |device.registers| == REGISTER_COUNT
      modifies this
      ensures (host, device, status) == Spec.WriteVerifyReg(old(host), old(device), opcode, value, control)
    {
      hide IsValid, Updated;
      status := Refuse(opcode, value);
      if status != Ok {
        return;
      }
      var candidate := Candidate(host, opcode, value);
      var written := WriteFrame(opcode, value);
      if written {
        var read, back := ReadBackFrame(opcode, control);
        if read && back == value {
          if candidate.Some? {
            host := host.(active := candidate.value, configured := true, synchronized := true);
            return Ok;
          }
          status := Ok;
        } else {
          status := if read then ConfigError else SpiError;
        }
      } else {
        status := SpiError;
      }
      if IsConfigurationWrite(opcode) {
        host := host.(configured := false, synchronized := false);
      }
    }
  }
}
