/**
 * The update coordinator: it owns the API client and the device id, fixes the
 * polling interval, turns one status fetch into the snapshot the entities read
 * (or a failed update), and forwards entity commands to the client.
 * Scheduling itself belongs to the host framework and is not modelled.
 */
module Coordinators {
  import opened Py
  import opened Api

  /** The shortest polling interval the coordinator accepts, in seconds. */
  const MinIntervalSeconds: int := 10

  /** `max(10, int(scan_interval))`: the configured interval, raised to the
      floor when it is shorter. */
  function IntervalSeconds(scanInterval: int): (r: int)
    ensures r >= MinIntervalSeconds && r >= scanInterval
    ensures r == scanInterval <==> scanInterval >= MinIntervalSeconds
    ensures r == MinIntervalSeconds || r == scanInterval
  {
    if scanInterval < MinIntervalSeconds then MinIntervalSeconds else scanInterval
  }

  /** What one status fetch produced: the decoded document, or the failure
      together with its message (`str(err)`). */
  datatype Fetch = Fetched(document: Value) | FetchError(message: string)

  /** What one update hands the framework: new data, or `UpdateFailed`. */
  datatype Update = Updated(data: Value) | UpdateFailed(message: string)

  class Coordinator {
    const deviceId: string
    const client: ApiClient
    /** The polling interval in seconds, as handed to the framework. */
    var updateInterval: int

    constructor (token: string, deviceId: string, scanInterval: int)
      ensures this.deviceId == deviceId
      ensures fresh(client) && client.headers == map["Authorization" := Authorization(token)]
      ensures updateInterval == IntervalSeconds(scanInterval)
    {
      updateInterval := if MinIntervalSeconds < scanInterval then scanInterval else MinIntervalSeconds;
      this.deviceId := deviceId;
      client := new ApiClient(token);
    }

    /** `_async_update_data`: requests the device's status; a falsy document
        becomes `{}`, any failure becomes `UpdateFailed` with its message. */
    method UpdateData(fetched: Fetch) returns (request: Request, r: Update)
      ensures request == client.StatusRequest(deviceId)
      ensures r.UpdateFailed? <==> fetched.FetchError?
      ensures fetched.FetchError? ==> r.message == fetched.message
      ensures fetched.Fetched? && Truthy(fetched.document) ==> r.data == fetched.document
      ensures fetched.Fetched? && !Truthy(fetched.document) ==> r.data == EmptyDict
    {
      request := client.StatusRequest(deviceId);
      match fetched
      case Fetched(doc) => r := Updated(Or(doc, EmptyDict));
      case FetchError(msg) => r := UpdateFailed(msg);
    }

    /** `device_id`. */
    function DeviceId(): string {
      deviceId
    }

    /** `command`: sends the command for this coordinator's device, with absent
        arguments replaced by `[]`; the request body is the same as if the
        arguments had been passed through untouched. */
    method SendCommand(component: string, capability: string, command: string, arguments: Value)
      returns (request: Request)
      ensures request == client.CommandRequest(deviceId, Command(component, capability, command, Or(arguments, EmptyList)))
      ensures request.body == Some(CommandBody(Command(component, capability, command, arguments)))
      ensures DeviceOfUrl(request.url, CommandsSuffix) == Some(deviceId)
    {
      CommandBodyRoundTrip(Command(component, capability, command, arguments));
      request := client.CommandRequest(deviceId, Command(component, capability, command, Or(arguments, EmptyList)));
    }
  }
}
