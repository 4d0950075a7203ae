/** The fetch client `GenerateTypescriptModels` appends after the types
    (internal/generate/typescript.go), kept apart from the emitter so that
    facts about its text are proved over these literals alone. */
module TsClient {
  /** `typescriptFetchClient`: the client appended after the types. The
      template opens with a line break; below, one literal per line of it,
      long lines in a few pieces, in sections short enough for the
      character-level facts about them to be proved one section at a time. */
  const Client: string :=
    "\n" + ClientOptions + ClientPrepare + ClientSend

  /** The `ClientOptions` type: the base URL and the two hooks. */
  const ClientOptions: string :=
    ClientOptionsType + ClientRequestHook + ClientRequestParams + ClientRequestParamsEnd + ClientResponseHook + ClientOptionsEnd

  /** `createClient` up to the query string and the path parameters. */
  const ClientPrepare: string :=
    ClientHead + ClientUrl + ClientBefore + ClientBeforeCall + ClientQueryObject + ClientQueryEach + ClientQueryString + ClientPathParams

  /** The path, the request, the response hook and the export. */
  const ClientSend: string :=
    ClientPath + ClientPathValue + ClientFetch + ClientFetchBody + ClientResult + ClientResultBody + ClientAfter + ClientEnd

  /** The `ClientOptions` type and its base URL. */
  const ClientOptionsType: string :=
    "\n" +
    "type ClientOptions " + "= {\n" +
    "\turl?: string\n"

  /** The request hook's argument: method and path. */
  const ClientRequestHook: string :=
    "\tbeforeRequest?: (" + "api: {\n" +
    "\t\tmethod: any,\n" +
    "\t\tpath: any,\n"

  /** The request hook's parameters. */
  const ClientRequestParams: string :=
    "\t\tparams: {\n" +
    "\t\t\tpath: any,\n" +
    "\t\t\theader: any,\n" +
    "\t\t\tbody: any,\n"

  /** The last parameters, closing the argument. */
  const ClientRequestParamsEnd: string :=
    "\t\t\tcookie: any,\n" +
    "\t\t\tquery: any\n" +
    "\t\t}\n"

  /** The response hook's argument. */
  const ClientResponseHook: string :=
    "\t}) => void,\n" +
    "\tafterRequest?: (" + "response: {\n" +
    "\t\tstatus: number,\n"

  /** The end of the response hook and of the type. */
  const ClientOptionsEnd: string :=
    "\t\tbody: any\n" +
    "\t}) => void\n" +
    "}\n"

  /** `createClient`, whose calls return the `Api` signature. */
  const ClientHead: string :=
    "\n" +
    "function " + "createClient(" + "options?: " + "ClientOptions): Api " + "{\n"

  /** The base URL, empty unless given. */
  const ClientUrl: string :=
    "\tconst url = " + "options?.url ? " + "options.url : ''\n"

  /** The returned function; the request hook, when given, sees the call first. */
  const ClientBefore: string :=
    "\treturn (async (" + "api: any) => {\n" +
    "\t\tif (options?." + "beforeRequest) {\n"

  /** The call of the request hook. */
  const ClientBeforeCall: string :=
    "\t\t\toptions." + "beforeRequest(api)\n" +
    "\t\t}\n"

  /** The query object. */
  const ClientQueryObject: string :=
    "\t\tconst query = new " + "URLSearchParams()\n" +
    "\t\tconst queryObj = " + "api?.params?.query " + "|| {}\n"

  /** Each query value is set on the search parameters. */
  const ClientQueryEach: string :=
    "\t\tObject.keys(" + "queryObj).forEach(" + "name => query.set(" + "name, " + "queryObj[name]))\n"

  /** The query string, empty when there is no query value. */
  const ClientQueryString: string :=
    "\t\tconst queryString " + "= (query.size > 0 ? " + "'?' + query." + "toString() : '')\n"

  /** The path parameters. */
  const ClientPathParams: string :=
    "\t\tconst pathParams " + "= api?.params?.path " + "|| {}\n"

  /** Placeholders of the path replaced by their parameters. */
  const ClientPath: string :=
    "\t\tconst path = api." + "path.replace(/{(" + "\\w+)}/g, (_, key) " + "=> \n"

  /** A placeholder without a parameter is left as it is. */
  const ClientPathValue: string :=
    "\t\t\tpathParams[key] " + "!== undefined ? " + "pathParams[key] : " + "'{' + key + '}'\n" +
    "\t\t)\n"

  /** The request. */
  const ClientFetch: string :=
    "\t\tconst resp = " + "await fetch(url + " + "path + queryString, " + "{\n" +
    "\t\t\tmethod: api." + "method,\n"

  /** The request body, the `body` parameter. */
  const ClientFetchBody: string :=
    "\t\t\tbody: api?." + "params?.body,\n" +
    "\t\t})\n"

  /** The result handed to the response hook. */
  const ClientResult: string :=
    "\t\tconst result = {\n" +
    "\t\t\tstatus: resp." + "status,\n"

  /** The parsed body, then the test for the response hook. */
  const ClientResultBody: string :=
    "\t\t\tbody: await resp." + "json()\n" +
    "\t\t}\n" +
    "\t\tif (options?." + "afterRequest) {\n"

  /** The response hook, when given, sees the result. */
  const ClientAfter: string :=
    "\t\t\toptions." + "afterRequest(" + "result)\n" +
    "\t\t}\n" +
    "\t\treturn result\n"

  /** The export. */
  const ClientEnd: string :=
    "\t}) as Api\n" +
    "}\n" +
    "\n" +
    "export {\n" +
    "\tcreateClient\n" +
    "}\n"

  /** No `%` occurs in the client, so no marker pattern can end in it. */
  lemma ClientHasNoMarker()
    ensures '%' !in Client
  {
    ClientOptionsClean();
    ClientPrepareClean();
    ClientSendClean();
  }

  lemma ClientOptionsClean()
    ensures '%' !in ClientOptions
  {
    ClientOptionsTypeClean();
    ClientRequestHookClean();
    ClientRequestParamsClean();
    ClientRequestParamsEndClean();
    ClientResponseHookClean();
    ClientOptionsEndClean();
    NoMarkerIn6(ClientOptionsType, ClientRequestHook, ClientRequestParams, ClientRequestParamsEnd, ClientResponseHook, ClientOptionsEnd);
  }

  lemma ClientPrepareClean()
    ensures '%' !in ClientPrepare
  {
    ClientHeadClean();
    ClientUrlClean();
    ClientBeforeClean();
    ClientBeforeCallClean();
    ClientQueryObjectClean();
    ClientQueryEachClean();
    ClientQueryStringClean();
    ClientPathParamsClean();
    NoMarkerIn8(ClientHead, ClientUrl, ClientBefore, ClientBeforeCall, ClientQueryObject, ClientQueryEach, ClientQueryString, ClientPathParams);
  }

  lemma ClientSendClean()
    ensures '%' !in ClientSend
  {
    ClientPathClean();
    ClientPathValueClean();
    ClientFetchClean();
    ClientFetchBodyClean();
    ClientResultClean();
    ClientResultBodyClean();
    ClientAfterClean();
    ClientEndClean();
    NoMarkerIn8(ClientPath, ClientPathValue, ClientFetch, ClientFetchBody, ClientResult, ClientResultBody, ClientAfter, ClientEnd);
  }

  lemma NoMarkerIn6(a: string, b: string, c: string, d: string, e: string, f: string)
    requires '%' !in a && '%' !in b && '%' !in c && '%' !in d && '%' !in e && '%' !in f
    ensures '%' !in a + b + c + d + e + f
  {
  }

  lemma NoMarkerIn8(a: string, b: string, c: string, d: string, e: string, f: string, g: string, h: string)
    requires '%' !in a && '%' !in b && '%' !in c && '%' !in d
    requires '%' !in e && '%' !in f && '%' !in g && '%' !in h
    ensures '%' !in a + b + c + d + e + f + g + h
  {
  }

  lemma ClientOptionsTypeClean()
    ensures '%' !in ClientOptionsType
  {
  }

  lemma ClientRequestHookClean()
    ensures '%' !in ClientRequestHook
  {
  }

  lemma ClientRequestParamsClean()
    ensures '%' !in ClientRequestParams
  {
  }

  lemma ClientRequestParamsEndClean()
    ensures '%' !in ClientRequestParamsEnd
  {
  }

  lemma ClientResponseHookClean()
    ensures '%' !in ClientResponseHook
  {
  }

  lemma ClientOptionsEndClean()
    ensures '%' !in ClientOptionsEnd
  {
  }

  lemma ClientHeadClean()
    ensures '%' !in ClientHead
  {
  }

  lemma ClientUrlClean()
    ensures '%' !in ClientUrl
  {
  }

  lemma ClientBeforeClean()
    ensures '%' !in ClientBefore
  {
  }

  lemma ClientBeforeCallClean()
    ensures '%' !in ClientBeforeCall
  {
  }

  lemma ClientQueryObjectClean()
    ensures '%' !in ClientQueryObject
  {
  }

  lemma ClientQueryEachClean()
    ensures '%' !in ClientQueryEach
  {
  }

  lemma ClientQueryStringClean()
    ensures '%' !in ClientQueryString
  {
  }

  lemma ClientPathParamsClean()
    ensures '%' !in ClientPathParams
  {
  }

  lemma ClientPathClean()
    ensures '%' !in ClientPath
  {
  }

  lemma ClientPathValueClean()
    ensures '%' !in ClientPathValue
  {
  }

  lemma ClientFetchClean()
    ensures '%' !in ClientFetch
  {
  }

  lemma ClientFetchBodyClean()
    ensures '%' !in ClientFetchBody
  {
  }

  lemma ClientResultClean()
    ensures '%' !in ClientResult
  {
  }

  lemma ClientResultBodyClean()
    ensures '%' !in ClientResultBody
  {
  }

  lemma ClientAfterClean()
    ensures '%' !in ClientAfter
  {
  }

  lemma ClientEndClean()
    ensures '%' !in ClientEnd
  {
  }
}
