/** The configuration the gateway reads: per service its path key, allowed
    methods, path-stripping flag and upstream URLs; gateway-wide the
    load-balancing algorithm name and the CORS allow-lists. */
module Config {

  datatype ServiceConfig = ServiceConfig(
    path: string,
    methods: seq<string>,
    stripPath: bool,
    upstreams: seq<string>)

  datatype CorsConfig = CorsConfig(allowedOrigins: seq<string>, allowedMethods: seq<string>)

  datatype Config = Config(services: seq<ServiceConfig>, algorithm: string, cors: CorsConfig)
}
